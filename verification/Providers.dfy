/** Provider layering and model references (`tabit-config/src/lib.rs`, and the merge order of
    `tabit-app/src/assemble.rs`): the user's providers, then package fragments, then the downloaded
    catalog, merged in place; and the lookup of a model by a bare or qualified reference. */
module Providers {
  import opened Wrappers
  import opened Sequences
  import opened Assoc

  /** `facts` stands for every field that merging carries along whole. */
  datatype Model = Model(id: string, facts: string)

  datatype Provider = Provider(facts: string, models: seq<Model>)

  /** A providers table in its own (alphabetical) order. */
  type Table = Assoc<string, Provider>

  datatype Fragment = Fragment(setsDefault: bool, providers: Table)

  type Merged = map<string, Provider>

  // ---- fragments

  /** What a fragment adds: the providers nobody has contributed yet. */
  function WithFragment(base: Merged, table: Table): Merged {
    map id | id in base.Keys + TableKeys(table) :: if id in base then base[id] else Get(table, id).value
  }

  function TableKeys(table: Table): (keys: set<string>)
    ensures forall id :: id in keys <==> Has(table, id)
  {
    var keys := set i | 0 <= i < |table| :: table[i].0;
    assert forall id :: id in keys <==> Has(table, id) by {
      forall id
        ensures id in keys <==> Has(table, id)
      {
        HasIffListed(table, id);
        KeysAt(table);
      }
    }
    keys
  }

  lemma {:induction false} KeysAt(table: Table)
    ensures |Keys(table)| == |table| && forall i :: 0 <= i < |table| ==> Keys(table)[i] == table[i].0
  {
    if table != [] {
      KeysAt(table[1..]);
    }
  }

  function Contributed(base: Merged, table: Table): seq<string> {
    if table == [] then []
    else (if table[0].0 in base then [] else [table[0].0]) + Contributed(base, table[1..])
  }

  /** Collisions worth a warning: the id is taken, and not by the user. */
  function Collisions(base: Merged, user: set<string>, table: Table): nat {
    if table == [] then 0
    else (if table[0].0 in base && table[0].0 !in user then 1 else 0) + Collisions(base, user, table[1..])
  }

  // ---- the catalog

  function HasModel(models: seq<Model>, id: string): bool {
    exists i :: 0 <= i < |models| && models[i].id == id
  }

  /** Models appended one by one, skipping ids already there. */
  function Filled(models: seq<Model>, more: seq<Model>): seq<Model>
    decreases |more|
  {
    if more == [] then models
    else Filled(if HasModel(models, more[0].id) then models else models + [more[0]], more[1..])
  }

  function WithCatalog(base: Merged, table: Table): Merged {
    map id | id in base.Keys + TableKeys(table) ::
      if id !in base then Get(table, id).value
      else if Has(table, id) then base[id].(models := Filled(base[id].models, Get(table, id).value.models))
      else base[id]
  }

  class TabitConfig {
    var providers: Merged

    constructor (providers: Merged)
      ensures this.providers == providers
    {
      this.providers := providers;
    }

    /** `warned` counts the warnings pushed. */
    method MergeFragment(fragment: Fragment, user: set<string>) returns (contributed: seq<string>, warned: nat)
      requires Distinct(fragment.providers)
      modifies this
      ensures providers == WithFragment(old(providers), fragment.providers)
      ensures contributed == Contributed(old(providers), fragment.providers)
      ensures warned == (if fragment.setsDefault then 1 else 0)
        + Collisions(old(providers), user, fragment.providers)
    {
      contributed, warned := [], if fragment.setsDefault then 1 else 0;
      var table := fragment.providers;
      hide *;
      assert table[0..] == table;
      for i := 0 to |table|
        invariant Distinct(table[i..])
        invariant WithFragment(providers, table[i..]) == WithFragment(old(providers), table)
        invariant contributed + Contributed(providers, table[i..]) == Contributed(old(providers), table)
        invariant warned + Collisions(providers, user, table[i..])
          == (if fragment.setsDefault then 1 else 0) + Collisions(old(providers), user, table)
      {
        var id, provider := table[i].0, table[i].1;
        assert table[i..][0] == table[i] && table[i..][1..] == table[i + 1..];
        FragmentStep(providers, table[i..]);
        ReportStep(providers, user, table[i..]);
        if id in providers {
          assert [] + Contributed(providers, table[i + 1..]) == Contributed(providers, table[i + 1..]);
          if id !in user {
            warned := warned + 1;
          }
          continue;
        }
        providers := providers[id := provider];
        assert contributed + ([id] + Contributed(providers, table[i + 1..]))
          == contributed + [id] + Contributed(providers, table[i + 1..]);
        contributed := contributed + [id];
      }
      NoFragment(providers);
      assert table[|table|..] == [] && contributed + [] == contributed;
    }

    method MergeCatalog(table: Table)
      requires Distinct(table)
      modifies this
      ensures providers == WithCatalog(old(providers), table)
    {
      for i := 0 to |table|
        invariant Distinct(table[i..])
        invariant WithCatalog(providers, table[i..]) == WithCatalog(old(providers), table)
      {
        var (id, provider) := table[i];
        assert table[i..][0] == table[i] && table[i..][1..] == table[i + 1..];
        CatalogStep(providers, table[i..]);
        if id !in providers {
          providers := providers[id := provider];
        } else {
          FillModels(id, provider.models);
        }
      }
    }

    method FillModels(id: string, models: seq<Model>)
      requires id in providers
      modifies this
      ensures providers == old(providers)[id :=
        old(providers)[id].(models := Filled(old(providers)[id].models, models))]
    {
      for k := 0 to |models|
        invariant id in providers && providers == old(providers)[id := providers[id]]
        invariant providers[id].facts == old(providers)[id].facts
        invariant Filled(providers[id].models, models[k..]) == Filled(old(providers)[id].models, models)
      {
        assert models[k..][1..] == models[k + 1..];
        var existing := providers[id];
        if !HasModel(existing.models, models[k].id) {
          providers := providers[id := existing.(models := existing.models + [models[k]])];
        }
      }
    }

    /** Every fragment in scan order; `user` is what the config held before the first. */
    method MergeFragments(fragments: seq<Fragment>) returns (warned: nat)
      requires forall j :: 0 <= j < |fragments| ==> Distinct(fragments[j].providers)
      modifies this
      ensures providers == WithFragments(old(providers), fragments)
      ensures warned == Warnings(old(providers), fragments)
    {
      var user := providers.Keys;
      warned := 0;
      for j := 0 to |fragments|
        invariant providers == WithFragments(old(providers), fragments[..j])
        invariant warned == Warnings(old(providers), fragments[..j])
      {
        assert fragments[..j + 1][..j] == fragments[..j];
        var contributed, more := MergeFragment(fragments[j], user);
        warned := warned + more;
      }
      assert fragments[..|fragments|] == fragments;
    }
  }

  function WithFragments(user: Merged, fragments: seq<Fragment>): Merged {
    if fragments == [] then user
    else WithFragment(WithFragments(user, fragments[..|fragments| - 1]), fragments[|fragments| - 1].providers)
  }

  function Warnings(user: Merged, fragments: seq<Fragment>): nat {
    if fragments == [] then 0
    else
      var earlier, last := fragments[..|fragments| - 1], fragments[|fragments| - 1];
      Warnings(user, earlier) + (if last.setsDefault then 1 else 0)
      + Collisions(WithFragments(user, earlier), user.Keys, last.providers)
  }

  /** Adding an id a table does not list changes nothing about that table. */
  lemma {:induction false} NotListedLater(base: Merged, user: set<string>, table: Table, id: string, provider: Provider)
    requires !Has(table, id)
    ensures Contributed(base[id := provider], table) == Contributed(base, table)
    ensures Collisions(base[id := provider], user, table) == Collisions(base, user, table)
  {
    if table != [] {
      NotListedLater(base, user, table[1..], id, provider);
    }
  }

  lemma ReportStep(base: Merged, user: set<string>, table: Table)
    requires table != [] && Distinct(table)
    ensures Distinct(table[1..])
    ensures var id := table[0].0;
      var next := if id in base then base else base[id := table[0].1];
      && Contributed(base, table) == (if id in base then [] else [id]) + Contributed(next, table[1..])
      && Collisions(base, user, table) ==
           (if id in base && id !in user then 1 else 0) + Collisions(next, user, table[1..])
  {
    NotListedLater(base, user, table[1..], table[0].0, table[0].1);
  }

  lemma NoFragment(base: Merged)
    ensures WithFragment(base, []) == base && Contributed(base, []) == []
    ensures forall user :: Collisions(base, user, []) == 0
  {
  }

  lemma FragmentStep(base: Merged, table: Table)
    requires table != [] && Distinct(table)
    ensures WithFragment(base, table) ==
      WithFragment(if table[0].0 in base then base else base[table[0].0 := table[0].1], table[1..])
  {
  }

  lemma CatalogStep(base: Merged, table: Table)
    requires table != [] && Distinct(table)
    ensures var (id, provider) := table[0];
      WithCatalog(base, table) == WithCatalog(
        if id !in base then base[id := provider]
        else base[id := base[id].(models := Filled(base[id].models, provider.models))], table[1..])
  {
  }

  // ---- what the layers amount to

  /** The first fragment's entry for an id. */
  function FirstFragment(fragments: seq<Fragment>, id: string): Option<Provider> {
    if fragments == [] then None
    else if Has(fragments[0].providers, id) then Get(fragments[0].providers, id)
    else FirstFragment(fragments[1..], id)
  }

  lemma {:induction false} FirstFragmentSnoc(fragments: seq<Fragment>, last: Fragment, id: string)
    ensures FirstFragment(fragments + [last], id) ==
      if FirstFragment(fragments, id).Some? then FirstFragment(fragments, id) else Get(last.providers, id)
  {
    if fragments == [] {
      assert ([] + [last])[1..] == [];
    } else {
      assert (fragments + [last])[1..] == fragments[1..] + [last];
      FirstFragmentSnoc(fragments[1..], last, id);
    }
  }

  /** The user's provider, else the first fragment's. */
  lemma {:induction false} FragmentsLookup(user: Merged, fragments: seq<Fragment>, id: string)
    ensures var merged := WithFragments(user, fragments);
      && (id in merged <==> id in user || FirstFragment(fragments, id).Some?)
      && (id in merged ==> merged[id] == if id in user then user[id] else FirstFragment(fragments, id).value)
  {
    if fragments != [] {
      var n := |fragments| - 1;
      FragmentsLookup(user, fragments[..n], id);
      FirstFragmentSnoc(fragments[..n], fragments[n], id);
      assert fragments[..n] + [fragments[n]] == fragments;
    }
  }

  /** All layers: the user's provider, else the first fragment's, else the catalog's; a provider that
      was there keeps its fields and its models, and gains the catalog's models under new ids. */
  lemma LayersLookup(user: Merged, fragments: seq<Fragment>, catalog: Table, id: string)
    ensures var merged := WithCatalog(WithFragments(user, fragments), catalog);
      var own := if id in user then Some(user[id]) else FirstFragment(fragments, id);
      && (id in merged <==> own.Some? || Has(catalog, id))
      && (id in merged && own.None? ==> merged[id] == Get(catalog, id).value)
      && (id in merged && own.Some? ==>
            && merged[id].facts == own.value.facts
            && own.value.models <= merged[id].models
            && forall m :: m in merged[id].models[|own.value.models|..] ==>
                 Has(catalog, id) && m in Get(catalog, id).value.models && !HasModel(own.value.models, m.id))
      && (id in merged && own.Some? && Has(catalog, id) ==>
            forall m :: m in Get(catalog, id).value.models ==> HasModel(merged[id].models, m.id))
  {
    FragmentsLookup(user, fragments, id);
    var base := WithFragments(user, fragments);
    if id in base && Has(catalog, id) {
      FilledAdds(base[id].models, Get(catalog, id).value.models);
    }
  }

  lemma {:induction false} FilledAdds(models: seq<Model>, more: seq<Model>)
    ensures models <= Filled(models, more)
    ensures forall m :: m in Filled(models, more)[|models|..] ==> m in more && !HasModel(models, m.id)
    ensures forall m :: m in more ==> HasModel(Filled(models, more), m.id)
    decreases |more|
  {
    if more != [] {
      var next := if HasModel(models, more[0].id) then models else models + [more[0]];
      FilledAdds(next, more[1..]);
      var filled := Filled(models, more);
      HasModelGrows(models, next, more[0]);
      HasModelPrefix(next, filled, more[0].id);
      forall m | m in filled[|models|..]
        ensures m in more && !HasModel(models, m.id)
      {
        var k :| |models| <= k < |filled| && filled[k] == m;
        if k < |next| {
          assert next[k] == filled[k];
        } else {
          assert m in filled[|next|..];
          if HasModel(models, m.id) { HasModelPrefix(models, next, m.id); }
        }
      }
    }
  }

  lemma HasModelGrows(models: seq<Model>, next: seq<Model>, model: Model)
    requires next == if HasModel(models, model.id) then models else models + [model]
    ensures models <= next && HasModel(next, model.id)
  {
    if !HasModel(models, model.id) { assert next[|models|] == model; }
  }

  lemma HasModelPrefix(a: seq<Model>, b: seq<Model>, id: string)
    requires a <= b && HasModel(a, id)
    ensures HasModel(b, id)
  {
    var i :| 0 <= i < |a| && a[i].id == id;
    assert b[i] == a[i];
  }

  /** No provider lists an id twice: what validation demands of every table. */
  ghost predicate UniqueIds(models: seq<Model>) {
    forall i, j :: 0 <= i < j < |models| ==> models[i].id != models[j].id
  }

  ghost predicate UniqueTables(merged: Merged) {
    forall id :: id in merged ==> UniqueIds(merged[id].models)
  }

  lemma {:induction false} FilledUnique(models: seq<Model>, more: seq<Model>)
    requires UniqueIds(models)
    ensures UniqueIds(Filled(models, more))
    decreases |more|
  {
    if more != [] {
      FilledUnique(if HasModel(models, more[0].id) then models else models + [more[0]], more[1..]);
    }
  }

  lemma {:induction false} FilledAgain(models: seq<Model>, more: seq<Model>)
    requires forall m :: m in more ==> HasModel(models, m.id)
    ensures Filled(models, more) == models
    decreases |more|
  {
    if more != [] {
      assert more[0] in more;
      FilledAgain(models, more[1..]);
    }
  }

  /** Merging keeps model ids unique within each provider. */
  lemma CatalogKeepsUnique(base: Merged, table: Table)
    requires UniqueTables(base) && forall id :: Has(table, id) ==> UniqueIds(Get(table, id).value.models)
    ensures UniqueTables(WithCatalog(base, table))
  {
    forall id | id in WithCatalog(base, table)
      ensures UniqueIds(WithCatalog(base, table)[id].models)
    {
      if id in base && Has(table, id) {
        FilledUnique(base[id].models, Get(table, id).value.models);
      }
    }
  }

  /** Merging the same catalog again changes nothing. */
  lemma CatalogIsIdempotent(base: Merged, table: Table)
    ensures WithCatalog(WithCatalog(base, table), table) == WithCatalog(base, table)
  {
    var once := WithCatalog(base, table);
    forall id | Has(table, id)
      ensures Filled(once[id].models, Get(table, id).value.models) == once[id].models
    {
      var more := Get(table, id).value.models;
      if id in base {
        FilledAdds(base[id].models, more);
      } else {
        forall m | m in more
          ensures HasModel(more, m.id)
        {
          var i :| 0 <= i < |more| && more[i] == m;
        }
      }
      FilledAgain(once[id].models, more);
    }
  }

  // ---- warnings

  /** Ids the j-th fragment shares with an earlier one, and not with the user. */
  function Clashes(user: set<string>, fragments: seq<Fragment>, j: nat): set<string>
    requires j < |fragments|
  {
    set id | id in TableKeys(fragments[j].providers) && id !in user && FirstFragment(fragments[..j], id).Some?
  }

  function ClashCount(user: set<string>, fragments: seq<Fragment>, n: nat): nat
    requires n <= |fragments|
  {
    if n == 0 then 0
    else
      ClashCount(user, fragments, n - 1) + |Clashes(user, fragments, n - 1)|
      + (if fragments[n - 1].setsDefault then 1 else 0)
  }

  lemma {:induction false} CollisionsCount(base: Merged, user: set<string>, table: Table, clashes: set<string>)
    requires Distinct(table)
    requires forall id :: id in clashes <==> Has(table, id) && id in base && id !in user
    ensures Collisions(base, user, table) == |clashes|
  {
    if table == [] {
      assert clashes == {};
    } else {
      var id := table[0].0;
      CollisionsCount(base, user, table[1..], clashes - {id});
    }
  }

  /** One warning per id a fragment shares with an earlier fragment but not with the user, and one per
      fragment that sets a default model; nothing else warns. */
  lemma {:induction false} WarningsExactly(user: Merged, fragments: seq<Fragment>, n: nat)
    requires n <= |fragments| && forall j :: 0 <= j < |fragments| ==> Distinct(fragments[j].providers)
    ensures Warnings(user, fragments[..n]) == ClashCount(user.Keys, fragments, n)
  {
    if n > 0 {
      WarningsExactly(user, fragments, n - 1);
      var earlier := fragments[..n - 1];
      assert fragments[..n][..n - 1] == earlier;
      var clashes := Clashes(user.Keys, fragments, n - 1);
      forall id
        ensures id in WithFragments(user, earlier) <==> id in user || FirstFragment(earlier, id).Some?
      {
        FragmentsLookup(user, earlier, id);
      }
      CollisionsCount(WithFragments(user, earlier), user.Keys, fragments[n - 1].providers, clashes);
    }
  }

  // ---- order

  /** What a fragment is reported to contribute: the ids nobody had, in the fragment's own order. */
  lemma {:induction false} ContributedExactly(base: Merged, table: Table)
    requires Distinct(table)
    ensures forall id :: id in Contributed(base, table) <==> Has(table, id) && id !in base
    ensures forall i, j :: 0 <= i < j < |Contributed(base, table)| ==>
      Precedes(table, Contributed(base, table)[i], Contributed(base, table)[j])
  {
    if table != [] {
      var rest := table[1..];
      ContributedExactly(base, rest);
      var later := Contributed(base, rest);
      forall i, j | 0 <= i < j < |Contributed(base, table)|
        ensures Precedes(table, Contributed(base, table)[i], Contributed(base, table)[j])
      {
        if table[0].0 in base || i > 0 {
          var k := if table[0].0 in base then 0 else 1;
          assert Precedes(rest, later[i - k], later[j - k]);
          PrecedesLater(table, later[i - k], later[j - k]);
        } else {
          assert later[j - 1] in later;
          ListedSomewhere(rest, later[j - 1]);
          var q :| 0 <= q < |rest| && rest[q].0 == later[j - 1];
          assert table[q + 1].0 == later[j - 1];
        }
      }
    }
  }

  ghost predicate Precedes(table: Table, a: string, b: string) {
    exists p, q :: 0 <= p < q < |table| && table[p].0 == a && table[q].0 == b
  }

  lemma PrecedesLater(table: Table, a: string, b: string)
    requires table != [] && Precedes(table[1..], a, b)
    ensures Precedes(table, a, b)
  {
    var p, q :| 0 <= p < q < |table[1..]| && table[1..][p].0 == a && table[1..][q].0 == b;
    assert table[p + 1].0 == a && table[q + 1].0 == b;
  }

  lemma ListedSomewhere(table: Table, id: string)
    requires Has(table, id)
    ensures exists q :: 0 <= q < |table| && table[q].0 == id
  {
    HasIffListed(table, id);
    var q :| 0 <= q < |table| && table[q] == (id, Get(table, id).value);
  }

  /** The models whose ids are not there yet, in their order. */
  function Missing(models: seq<Model>, more: seq<Model>): seq<Model> {
    if more == [] then []
    else if HasModel(models, more[0].id) then Missing(models, more[1..])
    else [more[0]] + Missing(models, more[1..])
  }

  lemma {:induction false} MissingStays(models: seq<Model>, next: seq<Model>, more: seq<Model>)
    requires forall m :: m in more ==> HasModel(models, m.id) == HasModel(next, m.id)
    ensures Missing(models, more) == Missing(next, more)
  {
    if more != [] {
      assert more[0] in more;
      MissingStays(models, next, more[1..]);
    }
  }

  /** From a catalog without repeated ids a provider gains exactly the models whose ids it lacks: behind its
      own, in the catalog's order. */
  lemma {:induction false} FilledInOrder(models: seq<Model>, more: seq<Model>)
    requires UniqueIds(more)
    ensures Filled(models, more) == models + Missing(models, more)
    decreases |more|
  {
    if more == [] {
      assert models + [] == models;
    } else {
      var next := if HasModel(models, more[0].id) then models else models + [more[0]];
      RestDiffers(more);
      hide HasModel, UniqueIds;
      FilledInOrder(next, more[1..]);
      forall m | m in more[1..]
        ensures HasModel(models, m.id) == HasModel(next, m.id)
      {
        OneMoreModel(models, more[0], m.id);
      }
      MissingStays(models, next, more[1..]);
      Regroup(models, [more[0]], Missing(models, more[1..]));
    }
  }

  lemma RestDiffers(more: seq<Model>)
    requires more != [] && UniqueIds(more)
    ensures UniqueIds(more[1..]) && forall m :: m in more[1..] ==> m.id != more[0].id
  {
  }

  lemma OneMoreModel(models: seq<Model>, model: Model, id: string)
    requires id != model.id
    ensures HasModel(models + [model], id) == HasModel(models, id)
  {
    if i :| 0 <= i < |models| && models[i].id == id {
      assert (models + [model])[i].id == id;
    }
  }
}
