/**
 * Mapping the requested chat model name to the upstream provider/model pair
 * (server.mjs, `resolveOpencodeModel`).
 */
module ModelResolve {
  import opened Wrappers
  import opened JsString

  datatype ModelRef = ModelRef(providerID: string, modelID: string)

  /** The startup configuration the resolver reads: the parsed model map and the default pair. */
  datatype Resolver = Resolver(modelMap: map<string, ModelRef>, defaultProvider: string, defaultModel: string)

  /**
   * `const [providerID, ...rest] = s.split(sep)` guarded by `s.includes(sep)`,
   * giving a pair only when `providerID` is non-empty and `rest` is not empty;
   * the model part is `rest.join(sep)`.
   */
  function SplitModelId(s: string, sep: string): Option<ModelRef>
    requires |sep| > 0
  {
    if Contains(s, sep) then
      var parts := Split(s, sep);
      if parts[0] != "" && |parts| > 1 then Some(ModelRef(parts[0], Join(parts[1..], sep))) else None
    else None
  }

  /** Reference reading: provider before the first separator, model everything after it. */
  function FirstSplit(s: string, sep: string): Option<ModelRef> {
    match IndexOf(s, sep)
    case None => None
    case Some(i) => if i > 0 then Some(ModelRef(s[..i], s[i + |sep|..])) else None
  }

  /** Split-then-rejoin is exactly a split at the first separator. */
  lemma SplitModelIdIsFirstSplit(s: string, sep: string)
    requires |sep| > 0
    ensures SplitModelId(s, sep) == FirstSplit(s, sep)
  {
    match IndexOf(s, sep)
    case None =>
    case Some(i) =>
      assert OccursAt(s, sep, i);
      SplitHeadRest(s, sep, i);
  }

  predicate MapHit(rv: Resolver, requested: Option<string>) {
    requested.Some? && requested.value != "" && requested.value in rv.modelMap
  }

  /** Neither a map hit nor a usable split on either separator. */
  predicate NoExplicitModel(rv: Resolver, requested: Option<string>) {
    && !MapHit(rv, requested)
    && (requested.None? || (FirstSplit(requested.value, "/").None? && FirstSplit(requested.value, ":").None?))
  }

  /**
   * `resolveOpencodeModel`: a map hit first, then a split at the first "/",
   * then at the first ":", each only with a non-empty provider part, then the
   * configured default pair when both halves are set, otherwise none.
   */
  function ResolveModel(rv: Resolver, requested: Option<string>): (r: Option<ModelRef>)
    ensures MapHit(rv, requested) ==> r == Some(rv.modelMap[requested.value])
    ensures (!MapHit(rv, requested) && requested.Some? && FirstSplit(requested.value, "/").Some?)
            ==> r == FirstSplit(requested.value, "/")
    ensures (&& !MapHit(rv, requested) && requested.Some?
             && FirstSplit(requested.value, "/").None? && FirstSplit(requested.value, ":").Some?)
            ==> r == FirstSplit(requested.value, ":")
    ensures NoExplicitModel(rv, requested)
            ==> r == (if rv.defaultProvider != "" && rv.defaultModel != ""
                      then Some(ModelRef(rv.defaultProvider, rv.defaultModel)) else None)
  {
    if MapHit(rv, requested) then Some(rv.modelMap[requested.value])
    else
      var bySlash := if requested.Some? && requested.value != "" then SplitModelId(requested.value, "/") else None;
      var byColon := if requested.Some? && requested.value != "" then SplitModelId(requested.value, ":") else None;
      SplitModelIdIsFirstSplit(requested.GetOr(""), "/");
      SplitModelIdIsFirstSplit(requested.GetOr(""), ":");
      if bySlash.Some? then bySlash
      else if byColon.Some? then byColon
      else if rv.defaultProvider != "" && rv.defaultModel != "" then Some(ModelRef(rv.defaultProvider, rv.defaultModel))
      else None
  }

  /** A pair obtained by splitting always has a non-empty provider and rebuilds the request. */
  lemma SplitRebuilds(s: string, sep: string)
    requires |sep| > 0 && FirstSplit(s, sep).Some?
    ensures FirstSplit(s, sep).value.providerID != ""
    ensures FirstSplit(s, sep).value.providerID + sep + FirstSplit(s, sep).value.modelID == s
    ensures !Contains(FirstSplit(s, sep).value.providerID, sep)
  {
    var i := IndexOf(s, sep).value;
    assert s == s[..i] + s[i..i + |sep|] + s[i + |sep|..];
    var p := s[..i];
    forall j | 0 <= j <= |p| ensures !OccursAt(p, sep, j) {
      if j + |sep| <= |p| {
        assert p[j..j + |sep|] == s[j..j + |sep|];
        assert !OccursAt(s, sep, j);
      }
    }
  }

  /** A map entry wins over splitting. */
  lemma ResolveMapHitExample()
    ensures ResolveModel(Resolver(map["gpt-x" := ModelRef("p", "m")], "", ""), Some("gpt-x"))
            == Some(ModelRef("p", "m"))
  {
  }

  /**
   * A name without a map entry whose first "/" follows a non-empty provider
   * resolves to that provider and everything after the "/": `foo/bar` gives
   * provider `foo`, model `bar`.
   */
  lemma ResolveSlash(rv: Resolver, provider: string, model: string)
    requires provider != "" && '/' !in provider
    requires provider + "/" + model !in rv.modelMap
    ensures ResolveModel(rv, Some(provider + "/" + model)) == Some(ModelRef(provider, model))
  {
    var s := provider + "/" + model;
    OneCharFreePrefix(provider, '/', "/" + model);
    assert provider + ("/" + model) == s;
    assert OccursAt(s, "/", |provider|) by {
      assert s[|provider|..|provider| + 1] == "/";
    }
    assert IndexOf(s, "/") == Some(|provider|);
    assert s[..|provider|] == provider && s[|provider| + 1..] == model;
    assert FirstSplit(s, "/") == Some(ModelRef(provider, model));
  }

  /** Only the first "/" separates: "a/b/c" gives model "b/c". */
  lemma ResolveRestJoinExample()
    ensures ResolveModel(Resolver(map[], "", ""), Some("a/b/c")) == Some(ModelRef("a", "b/c"))
  {
    var s := "a/b/c";
    assert OccursAt(s, "/", 1);
    OccurrenceHead(s, "/", 0);
    assert IndexOf(s, "/") == Some(1);
    assert s[..1] == "a" && s[2..] == "b/c";
  }

  /** A trailing "/" gives an empty model id. */
  lemma ResolveTrailingSlash(rv: Resolver, provider: string)
    requires provider != "" && '/' !in provider && provider + "/" !in rv.modelMap
    ensures ResolveModel(rv, Some(provider + "/")) == Some(ModelRef(provider, ""))
  {
    assert provider + "/" + "" == provider + "/";
    ResolveSlash(rv, provider, "");
  }

  /** A leading "/" leaves an empty provider, so the request falls through to the default pair. */
  lemma ResolveLeadingSlashExample()
    ensures ResolveModel(Resolver(map[], "p", "m"), Some("/x")) == Some(ModelRef("p", "m"))
  {
    var s := "/x";
    assert OccursAt(s, "/", 0);
    assert IndexOf(s, "/") == Some(0);
    NoHeadNoOccurrence(s, ":");
  }
}
