/** Model references (`tabit-config/src/lib.rs`, `model_index` and `resolve_model_ref`): every model is
    indexed under its bare id and under `provider/model`, and a reference resolves when its key holds
    one model. */
module ModelRefs {
  import opened Wrappers
  import opened Sequences
  import opened Assoc
  import opened Providers

  /** A provider id and a model id. */
  type Ref = (string, string)

  datatype RefError = Unknown | Ambiguous(candidates: seq<Ref>)

  function Qualified(r: Ref): string {
    r.0 + "/" + r.1
  }

  /** The two keys a model answers to. */
  predicate Answers(r: Ref, key: string) {
    r.1 == key || Qualified(r) == key
  }

  /** Every configured model, providers and models in their order. */
  function AllModels(table: Table): seq<Ref> {
    if table == [] then [] else ModelsOf(table[0].0, table[0].1.models) + AllModels(table[1..])
  }

  function ModelsOf(provider: string, models: seq<Model>): (refs: seq<Ref>)
    ensures |refs| == |models| && forall i :: 0 <= i < |refs| ==> refs[i] == (provider, models[i].id)
  {
    seq(|models|, i requires 0 <= i < |models| => (provider, models[i].id))
  }

  /** The models that answer to a key, in order. */
  function Matches(refs: seq<Ref>, key: string): seq<Ref> {
    if refs == [] then []
    else Matches(refs[..|refs| - 1], key) + if Answers(refs[|refs| - 1], key) then [refs[|refs| - 1]] else []
  }

  type Index = map<string, seq<Ref>>

  ghost predicate Indexes(index: Index, refs: seq<Ref>) {
    && (forall key :: key in index <==> Matches(refs, key) != [])
    && (forall key :: key in index ==> index[key] == Matches(refs, key))
  }

  function Listed(index: Index, key: string): seq<Ref> {
    if key in index then index[key] else []
  }

  function Register(index: Index, r: Ref): Index {
    var bare := index[r.1 := Listed(index, r.1) + [r]];
    bare[Qualified(r) := Listed(bare, Qualified(r)) + [r]]
  }

  lemma QualifiedIsLonger(r: Ref)
    ensures Qualified(r) != r.1
  {
    assert |Qualified(r)| == |r.0| + 1 + |r.1|;
  }

  /** Registering a model under both its keys keeps the index exact: no model is listed twice. */
  lemma RegisterKeepsIndex(index: Index, refs: seq<Ref>, r: Ref)
    requires Indexes(index, refs)
    ensures Indexes(Register(index, r), refs + [r])
  {
    QualifiedIsLonger(r);
    forall key
      ensures Matches(refs + [r], key) == Matches(refs, key) + if Answers(r, key) then [r] else []
    {
      assert (refs + [r])[..|refs|] == refs;
    }
  }

  method ModelIndex(table: Table) returns (index: Index)
    ensures Indexes(index, AllModels(table))
  {
    index := map[];
    ghost var refs: seq<Ref> := [];
    EmptyIndex();
    hide *;
    assert table[0..] == table && [] + AllModels(table) == AllModels(table);
    for i := 0 to |table|
      invariant Indexes(index, refs) && refs + AllModels(table[i..]) == AllModels(table)
    {
      var provider, entry := table[i].0, table[i].1;
      ghost var before := refs;
      AllModelsStep(table, i, before);
      for k := 0 to |entry.models|
        invariant Indexes(index, refs) && refs == before + ModelsOf(provider, entry.models)[..k]
      {
        var r := (provider, entry.models[k].id);
        RegisterKeepsIndex(index, refs, r);
        index := Register(index, r);
        refs := refs + [r];
      }
      assert refs == before + ModelsOf(provider, entry.models);
    }
    assert table[|table|..] == [];
    EmptyIndex();
    assert refs + [] == refs;
  }

  lemma EmptyIndex()
    ensures Indexes(map[], []) && AllModels([]) == []
  {
  }

  lemma AllModelsStep(table: Table, i: nat, before: seq<Ref>)
    requires i < |table|
    ensures before + AllModels(table[i..]) ==
      before + ModelsOf(table[i].0, table[i].1.models) + AllModels(table[i + 1..])
  {
    assert table[i..][1..] == table[i + 1..];
  }

  method ResolveModelRef(table: Table, reference: string) returns (r: Result<Ref, RefError>)
    ensures r == Resolve(AllModels(table), reference)
  {
    var index := ModelIndex(table);
    if reference !in index {
      return Err(Unknown);
    }
    var matches := index[reference];
    if |matches| == 1 {
      return Ok(matches[0]);
    }
    return Err(Ambiguous(matches));
  }

  function Resolve(refs: seq<Ref>, key: string): Result<Ref, RefError> {
    var matches := Matches(refs, key);
    if matches == [] then Err(Unknown)
    else if |matches| == 1 then Ok(matches[0])
    else Err(Ambiguous(matches))
  }

  // ---- what resolves

  lemma {:induction false} AllModelsListed(table: Table, r: Ref)
    ensures r in AllModels(table) ==>
      exists k :: 0 <= k < |table| && table[k].0 == r.0 && HasModel(table[k].1.models, r.1)
  {
    if table != [] && r in AllModels(table) {
      var own := ModelsOf(table[0].0, table[0].1.models);
      if r in own {
        var i :| 0 <= i < |own| && own[i] == r;
        assert table[0].1.models[i].id == r.1;
      } else {
        AllModelsListed(table[1..], r);
        var k :| 0 <= k < |table[1..]| && table[1..][k].0 == r.0 && HasModel(table[1..][k].1.models, r.1);
        assert table[k + 1] == table[1..][k];
      }
    }
  }

  /** No model is configured twice in a validated table: provider ids are keys, and validation refuses a
      repeated model id. */
  lemma {:induction false} ValidTablesHaveNoRepeats(table: Table)
    requires Distinct(table) && forall k :: 0 <= k < |table| ==> UniqueIds(table[k].1.models)
    ensures NoDup(AllModels(table))
  {
    if table != [] {
      ValidTablesHaveNoRepeats(table[1..]);
      var own, rest := ModelsOf(table[0].0, table[0].1.models), AllModels(table[1..]);
      forall r | r in rest
        ensures r.0 != table[0].0
      {
        AllModelsListed(table[1..], r);
        var k :| 0 <= k < |table[1..]| && table[1..][k].0 == r.0 && HasModel(table[1..][k].1.models, r.1);
        GetListed(table[1..], k);
      }
      forall i, j | 0 <= i < j < |own + rest|
        ensures (own + rest)[i] != (own + rest)[j]
      {
        if i < |own| <= j { assert rest[j - |own|] in rest; }
      }
    }
  }

  lemma {:induction false} MatchesExactly(refs: seq<Ref>, key: string)
    ensures forall r :: r in Matches(refs, key) <==> r in refs && Answers(r, key)
    ensures NoDup(refs) ==> NoDup(Matches(refs, key))
  {
    if refs != [] {
      var n := |refs| - 1;
      MatchesExactly(refs[..n], key);
      assert refs == refs[..n] + [refs[n]];
      assert forall i :: 0 <= i < n ==> refs[..n][i] == refs[i];
    }
  }

  /** A reference resolves to a model exactly when that model, and no other, answers to it. */
  lemma ResolveIff(refs: seq<Ref>, key: string, r: Ref)
    requires NoDup(refs)
    ensures Resolve(refs, key) == Ok(r) <==>
      r in refs && Answers(r, key) && forall q :: q in refs && Answers(q, key) ==> q == r
  {
    MatchesExactly(refs, key);
    var matches := Matches(refs, key);
    if matches != [] {
      assert matches[0] in matches;
      if |matches| > 1 { assert matches[1] in matches && matches[0] != matches[1]; }
    }
  }

  /** The three outcomes: unknown to nobody answering, ambiguous with exactly the candidates. */
  lemma ResolveErrors(refs: seq<Ref>, key: string)
    ensures Resolve(refs, key) == Err(Unknown) <==> forall q :: q in refs ==> !Answers(q, key)
    ensures Resolve(refs, key).Err? && Resolve(refs, key).error.Ambiguous? ==>
      forall q :: q in Resolve(refs, key).error.candidates <==> q in refs && Answers(q, key)
  {
    MatchesExactly(refs, key);
    var matches := Matches(refs, key);
    if matches != [] { assert matches[0] in matches; }
  }

  // ---- qualifying

  predicate Plain(id: string) {
    '/' !in id
  }

  /** The slash of a qualified key is its first. */
  lemma SlashEndsProvider(r: Ref)
    requires Plain(r.0)
    ensures |r.0| < |Qualified(r)| && Qualified(r)[|r.0|] == '/'
    ensures forall i :: 0 <= i < |r.0| ==> Qualified(r)[i] != '/'
  {
    forall i | 0 <= i < |r.0|
      ensures Qualified(r)[i] != '/'
    {
      assert r.0[i] in r.0;
    }
  }

  /** Qualified keys are injective as long as provider ids contain no slash. */
  lemma QualifiedInjective(r: Ref, q: Ref)
    requires Plain(r.0) && Plain(q.0) && Qualified(r) == Qualified(q)
    ensures r == q
  {
    var key := Qualified(r);
    SlashEndsProvider(r);
    SlashEndsProvider(q);
    assert r.0 == key[..|r.0|] && q.0 == key[..|q.0|];
    assert r.1 == key[|r.0| + 1..] && q.1 == key[|q.0| + 1..];
  }

  ghost predicate PlainProviders(refs: seq<Ref>) {
    forall r :: r in refs ==> Plain(r.0)
  }

  /** The advice of the ambiguity error, to qualify as `provider/model`, works exactly when no other model
      answers to that key: none has it as its bare id, and none shares it, which takes a provider id with
      a slash in it. */
  lemma QualifyingWorksIff(refs: seq<Ref>, r: Ref)
    requires NoDup(refs) && r in refs
    ensures Resolve(refs, Qualified(r)) == Ok(r) <==>
            forall q :: q in refs && q != r ==> q.1 != Qualified(r) && Qualified(q) != Qualified(r)
    ensures PlainProviders(refs) ==>
      (Resolve(refs, Qualified(r)) == Ok(r) <==> forall q :: q in refs ==> q.1 != Qualified(r))
  {
    ResolveIff(refs, Qualified(r), r);
    QualifiedIsLonger(r);
    if PlainProviders(refs) {
      forall q | q in refs && Qualified(q) == Qualified(r)
        ensures q == r
      {
        QualifiedInjective(q, r);
      }
    }
  }

  /** A model no reference reaches at all: both its keys are shared. */
  lemma UnreachableIff(refs: seq<Ref>, r: Ref)
    requires NoDup(refs) && r in refs
    ensures (forall key :: Resolve(refs, key) != Ok(r)) <==>
      && (exists q :: q in refs && q != r && Answers(q, r.1))
      && (exists q :: q in refs && q != r && Answers(q, Qualified(r)))
  {
    ResolveIff(refs, r.1, r);
    ResolveIff(refs, Qualified(r), r);
    forall key | key != r.1 && key != Qualified(r)
      ensures Resolve(refs, key) != Ok(r)
    {
      ResolveIff(refs, key, r);
    }
  }

  /** The failing family is inhabited: three providers, one of which names a model `a/m`. */
  lemma SomeModelIsUnreachable()
    ensures var refs := [("a", "m"), ("b", "m"), ("c", "a/m")];
      NoDup(refs) && PlainProviders(refs) && forall key :: Resolve(refs, key) != Ok(("a", "m"))
  {
    var refs: seq<Ref> := [("a", "m"), ("b", "m"), ("c", "a/m")];
    assert refs[0] == ("a", "m") && refs[1] == ("b", "m") && refs[2] == ("c", "a/m");
    assert "a" != "b" by { assert "a"[0] != "b"[0]; }
    assert "a" != "c" by { assert "a"[0] != "c"[0]; }
    assert "b" != "c" by { assert "b"[0] != "c"[0]; }
    assert Qualified(refs[0]) == "a/m" && Qualified(refs[0]) == refs[2].1;
    assert refs[1] in refs && refs[1] != refs[0] && Answers(refs[1], "m");
    assert refs[2] in refs && refs[0] in refs;
    assert PlainProviders(refs);
    UnreachableIff(refs, ("a", "m"));
  }

  /** And so is the other: a provider id with a slash, which validation lets through, shares a key with a
      model id that has one. */
  lemma SlashedProviderShadows()
    ensures var refs := [("a/b", "m"), ("a", "b/m")];
      && NoDup(refs) && (forall q :: q in refs ==> q.1 != Qualified(refs[0]))
      && Resolve(refs, Qualified(refs[0])) != Ok(refs[0])
  {
    var refs: seq<Ref> := [("a/b", "m"), ("a", "b/m")];
    assert |refs[0].0| != |refs[1].0|;
    assert Qualified(refs[0]) == "a/b/m" == Qualified(refs[1]);
    assert |refs[0].1| == 1 && |refs[1].1| == 3 && |Qualified(refs[0])| == 5;
    assert refs[1] in refs && refs[0] in refs;
    QualifyingWorksIff(refs, refs[0]);
  }
}
