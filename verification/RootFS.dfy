/** rootfs_providers.go, the rootfs half of auctioncellrep/auction_cell_rep.go and
    resources.go's MatchRootFS: what a cell advertises and what it can translate. */
module RootFS {
  import opened Types

  const PRELOADED_SCHEME := "preloaded"
  const PRELOADED_OCI_SCHEME := "preloaded+layer"

  datatype URL = URL(scheme: string, opaquePart: string, rawQuery: string)

  /** url.Parse, whatever it accepts. */
  type Parser = string -> Option<URL>

  type StackPathMap = map<string, string>

  datatype Provider = Arbitrary | FixedSet(names: set<string>)
  {
    predicate Match(u: URL) { Arbitrary? || u.opaquePart in names }
  }

  type Providers = map<string, Provider>

  predicate Match(p: Providers, u: URL) {
    u.scheme in p && p[u.scheme].Match(u)
  }

  /** CellState.MatchRootFS */
  predicate MatchRootFS(parse: Parser, p: Providers, rootFS: string) {
    parse(rootFS).Some? && Match(p, parse(rootFS).value)
  }

  predicate IsPreloaded(scheme: string) { scheme == PRELOADED_SCHEME || scheme == PRELOADED_OCI_SCHEME }

  /** Arbitrary schemes first; the preloaded ones are set last, so they always mean the stacks. */
  function Advertised(stacks: StackPathMap, arbitrary: seq<string>): (p: Providers) {
    map scheme | scheme in (set s | s in arbitrary) + {PRELOADED_SCHEME, PRELOADED_OCI_SCHEME} ::
      if IsPreloaded(scheme) then FixedSet(stacks.Keys) else Arbitrary
  }

  /** rootFSProviders, walking the stacks in any order. */
  method RootFSProviders(stacks: StackPathMap, arbitrary: seq<string>) returns (p: Providers)
    ensures p == Advertised(stacks, arbitrary)
  {
    p := map[];
    for i := 0 to |arbitrary|
      invariant p == map scheme | scheme in arbitrary[..i] :: Arbitrary
    {
      assert arbitrary[..i + 1] == arbitrary[..i] + [arbitrary[i]];
      p := p[arbitrary[i] := Arbitrary];
    }
    var names: set<string> := {};
    var todo := stacks.Keys;
    while todo != {}
      invariant todo <= stacks.Keys
      invariant names == stacks.Keys - todo
      decreases todo
    {
      var stack :| stack in todo;
      todo := todo - {stack};
      names := names + {stack};
    }
    p := p[PRELOADED_SCHEME := FixedSet(names)];
    p := p[PRELOADED_OCI_SCHEME := FixedSet(names)];
    assert arbitrary[..|arbitrary|] == arbitrary;
    assert names == stacks.Keys;
    forall scheme ensures scheme in p <==> scheme in Advertised(stacks, arbitrary) {}
    forall scheme | scheme in p ensures p[scheme] == Advertised(stacks, arbitrary)[scheme] {}
  }

  datatype PathError = Unparsable | PreloadedRootFSNotFound

  function PathForRootFS(parse: Parser, stacks: StackPathMap, rootFS: string): (r: Result<string, PathError>) {
    if rootFS == "" then Ok(rootFS)
    else
      match parse(rootFS)
      case None => Err(Unparsable)
      case Some(u) =>
        if u.scheme == PRELOADED_SCHEME then
          if u.opaquePart in stacks then Ok(stacks[u.opaquePart]) else Err(PreloadedRootFSNotFound)
        else if u.scheme == PRELOADED_OCI_SCHEME then
          if u.opaquePart in stacks then Ok(u.scheme + ":" + stacks[u.opaquePart] + "?" + u.rawQuery) else Err(PreloadedRootFSNotFound)
        else Ok(rootFS)
  }

  /** `path` is what `rootFS` stands for on a cell with these stacks. */
  predicate Resolves(parse: Parser, stacks: StackPathMap, rootFS: string, path: string) {
    if rootFS == "" then path == ""
    else
      && parse(rootFS).Some?
      && var u := parse(rootFS).value;
         && (u.scheme == PRELOADED_SCHEME ==> u.opaquePart in stacks && path == stacks[u.opaquePart])
         && (u.scheme == PRELOADED_OCI_SCHEME ==>
               u.opaquePart in stacks && path == "preloaded+layer:" + stacks[u.opaquePart] + "?" + u.rawQuery)
         && (!IsPreloaded(u.scheme) ==> path == rootFS)
  }

  lemma SchemesDiffer()
    ensures PRELOADED_SCHEME != PRELOADED_OCI_SCHEME
    ensures PRELOADED_OCI_SCHEME + ":" == "preloaded+layer:"
  {
    assert |PRELOADED_SCHEME| != |PRELOADED_OCI_SCHEME|;
  }

  /** A preloaded rootfs becomes the path of its stack, a layered one that path between the scheme and
      the query, any other parsable one stays itself; and what has none of these is an error. */
  lemma PathIsResolved(parse: Parser, stacks: StackPathMap, rootFS: string, path: string)
    ensures PathForRootFS(parse, stacks, rootFS) == Ok(path) <==> Resolves(parse, stacks, rootFS, path)
  {
    SchemesDiffer();
    if rootFS != "" && parse(rootFS).Some? {
      var u := parse(rootFS).value;
      if u.scheme == PRELOADED_OCI_SCHEME && u.opaquePart in stacks {
        assert u.scheme + ":" + stacks[u.opaquePart] + "?" + u.rawQuery == "preloaded+layer:" + stacks[u.opaquePart] + "?" + u.rawQuery;
      }
    }
  }

  /** The errors: a rootfs that does not parse, and a preloaded one of an unknown stack. */
  lemma PathErrors(parse: Parser, stacks: StackPathMap, rootFS: string)
    ensures PathForRootFS(parse, stacks, rootFS) == Err(Unparsable) <==> rootFS != "" && parse(rootFS).None?
    ensures PathForRootFS(parse, stacks, rootFS) == Err(PreloadedRootFSNotFound) <==>
            && rootFS != "" && parse(rootFS).Some? && IsPreloaded(parse(rootFS).value.scheme)
            && parse(rootFS).value.opaquePart !in stacks
  {
  }

  /** Whatever the cell advertises it can translate, for every list of arbitrary schemes, even one
      that names the preloaded schemes. */
  lemma AdvertisedIsTranslatable(parse: Parser, stacks: StackPathMap, arbitrary: seq<string>, rootFS: string)
    requires MatchRootFS(parse, Advertised(stacks, arbitrary), rootFS)
    ensures PathForRootFS(parse, stacks, rootFS).Ok?
  {
    var u := parse(rootFS).value;
    if IsPreloaded(u.scheme) {
      assert Advertised(stacks, arbitrary)[u.scheme] == FixedSet(stacks.Keys);
    }
  }

  /** On the preloaded schemes the two agree exactly. */
  lemma PreloadedAgree(parse: Parser, stacks: StackPathMap, arbitrary: seq<string>, rootFS: string)
    requires rootFS != "" && parse(rootFS).Some? && IsPreloaded(parse(rootFS).value.scheme)
    ensures MatchRootFS(parse, Advertised(stacks, arbitrary), rootFS) <==> PathForRootFS(parse, stacks, rootFS).Ok?
  {
    var u := parse(rootFS).value;
    assert Advertised(stacks, arbitrary)[u.scheme] == FixedSet(stacks.Keys);
  }

  /** Elsewhere translation is the more generous: it accepts every parsable rootfs, and the empty
      string, while only listed schemes are advertised. */
  lemma OtherSchemes(parse: Parser, stacks: StackPathMap, arbitrary: seq<string>, rootFS: string)
    requires rootFS == "" || (parse(rootFS).Some? && !IsPreloaded(parse(rootFS).value.scheme))
    ensures PathForRootFS(parse, stacks, rootFS) == Ok(rootFS)
    ensures parse(rootFS).Some? && !IsPreloaded(parse(rootFS).value.scheme) ==>
              (MatchRootFS(parse, Advertised(stacks, arbitrary), rootFS) <==> parse(rootFS).value.scheme in arbitrary)
  {
    if parse(rootFS).Some? && !IsPreloaded(parse(rootFS).value.scheme) {
      var scheme := parse(rootFS).value.scheme;
      assert scheme in Advertised(stacks, arbitrary) <==> scheme in arbitrary;
    }
  }
}
