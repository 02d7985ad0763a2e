/** Lists of model names: normalisation, and the set operations that keep the order of the first list. */
module ModelNames {
  import opened Text

  /** Trimmed, without empty names, every name once, at its first place. */
  function Normalize(models: seq<string>): seq<string> {
    if models == [] then []
    else
      var done, name := Normalize(models[..|models| - 1]), TrimSpace(models[|models| - 1]);
      if name == [] || name in done then done else done + [name]
  }

  function Pick(models: seq<string>, p: string -> bool): seq<string> {
    if models == [] then []
    else
      var done, name := Pick(models[..|models| - 1], p), models[|models| - 1];
      if p(name) then done + [name] else done
  }

  function Without(models: seq<string>, drop: seq<string>): seq<string> {
    Pick(models, (x: string) => x !in drop)
  }

  function Merge(base: seq<string>, appended: seq<string>): seq<string> {
    Normalize(base) + Without(Normalize(appended), Normalize(base))
  }

  function Subtract(base: seq<string>, removed: seq<string>): seq<string> {
    Without(Normalize(base), Normalize(removed))
  }

  function Intersect(base: seq<string>, allowed: seq<string>): seq<string> {
    Pick(Normalize(base), (x: string) => x in Normalize(allowed))
  }

  /** Adding wins over removing. */
  function ApplySelected(origin: seq<string>, add: seq<string>, remove: seq<string>): seq<string> {
    Subtract(Merge(origin, Normalize(add)), Subtract(Normalize(remove), Normalize(add)))
  }

  // ---------------------------------------------------------------------------
  // What the operations mean
  // ---------------------------------------------------------------------------

  ghost predicate Clean(models: seq<string>) {
    && (forall i :: 0 <= i < |models| ==> models[i] != [] && TrimSpace(models[i]) == models[i])
    && (forall i, j :: 0 <= i < j < |models| ==> models[i] != models[j])
  }

  ghost predicate Names(models: seq<string>, x: string) {
    x != [] && exists i :: 0 <= i < |models| && TrimSpace(models[i]) == x
  }

  lemma {:induction false} NormalizeIs(models: seq<string>)
    ensures Clean(Normalize(models))
    ensures forall x :: x in Normalize(models) <==> Names(models, x)
  {
    if models != [] {
      var n := |models| - 1;
      var init, name := models[..n], TrimSpace(models[n]);
      NormalizeIs(init);
      TrimEnds(models[n], SPACES);
      forall x ensures Names(models, x) <==> Names(init, x) || (x == name && name != []) {
        if Names(init, x) {
          var i :| 0 <= i < |init| && TrimSpace(init[i]) == x;
          assert models[i] == init[i];
        }
        if Names(models, x) {
          var i :| 0 <= i < |models| && TrimSpace(models[i]) == x;
          assert i < n ==> init[i] == models[i];
        }
      }
    }
  }

  lemma {:induction false} NormalizeClean(models: seq<string>)
    requires Clean(models)
    ensures Normalize(models) == models
  {
    if models != [] {
      var n := |models| - 1;
      assert models == models[..n] + [models[n]];
      NormalizeClean(models[..n]);
    }
  }

  lemma NamesConcat(a: seq<string>, b: seq<string>, x: string)
    ensures Names(a + b, x) <==> Names(a, x) || Names(b, x)
  {
    if Names(a, x) {
      var i :| 0 <= i < |a| && TrimSpace(a[i]) == x;
      assert (a + b)[i] == a[i];
    }
    if Names(b, x) {
      var i :| 0 <= i < |b| && TrimSpace(b[i]) == x;
      assert (a + b)[|a| + i] == b[i];
    }
  }

  lemma {:induction false} PickIs(models: seq<string>, p: string -> bool)
    ensures forall x :: x in Pick(models, p) <==> x in models && p(x)
    ensures Clean(models) ==> Clean(Pick(models, p))
  {
    if models != [] {
      var n := |models| - 1;
      PickIs(models[..n], p);
      assert models == models[..n] + [models[n]];
      assert Clean(models) ==> Clean(models[..n]);
    }
  }

  lemma {:induction false} PickAll(models: seq<string>, p: string -> bool)
    requires forall x :: x in models ==> p(x)
    ensures Pick(models, p) == models
  {
    if models != [] {
      var n := |models| - 1;
      assert models == models[..n] + [models[n]];
      PickAll(models[..n], p);
    }
  }

  lemma {:induction false} PickConcat(a: seq<string>, b: seq<string>, p: string -> bool)
    ensures Pick(a + b, p) == Pick(a, p) + Pick(b, p)
  {
    if b == [] {
      assert a + b == a;
    } else {
      var n := |b| - 1;
      assert (a + b)[..|a + b| - 1] == a + b[..n];
      PickConcat(a, b[..n], p);
    }
  }

  lemma CleanConcat(a: seq<string>, b: seq<string>)
    requires Clean(a) && Clean(b) && forall x :: x in b ==> x !in a
    ensures Clean(a + b)
  {
    forall i, j | 0 <= i < j < |a + b| ensures (a + b)[i] != (a + b)[j] {
      if i < |a| <= j { assert (a + b)[j] in b; }
    }
  }

  lemma WithoutIs(models: seq<string>, drop: seq<string>)
    ensures forall x :: x in Without(models, drop) <==> x in models && x !in drop
    ensures Clean(models) ==> Clean(Without(models, drop))
  {
    PickIs(models, (x: string) => x !in drop);
  }

  /** The base names, in order, then the new ones among the appended, in order. */
  lemma MergeIs(base: seq<string>, appended: seq<string>)
    ensures Clean(Merge(base, appended))
    ensures forall x :: x in Merge(base, appended) <==> x in Normalize(base) || x in Normalize(appended)
    ensures Normalize(base) <= Merge(base, appended)
  {
    NormalizeIs(base);
    NormalizeIs(appended);
    WithoutIs(Normalize(appended), Normalize(base));
    CleanConcat(Normalize(base), Without(Normalize(appended), Normalize(base)));
  }

  lemma SubtractIs(base: seq<string>, removed: seq<string>)
    ensures Clean(Subtract(base, removed))
    ensures forall x :: x in Subtract(base, removed) <==> x in Normalize(base) && x !in Normalize(removed)
  {
    NormalizeIs(base);
    WithoutIs(Normalize(base), Normalize(removed));
  }

  lemma IntersectIs(base: seq<string>, allowed: seq<string>)
    ensures Clean(Intersect(base, allowed))
    ensures forall x :: x in Intersect(base, allowed) <==> x in Normalize(base) && x in Normalize(allowed)
  {
    NormalizeIs(base);
    PickIs(Normalize(base), (x: string) => x in Normalize(allowed));
  }

  /** A name is in the result exactly when it was selected for adding, or was there and was not selected for removal. */
  lemma ApplySelectedIs(origin: seq<string>, add: seq<string>, remove: seq<string>)
    ensures Clean(ApplySelected(origin, add, remove))
    ensures forall x :: x in ApplySelected(origin, add, remove) <==>
              x in Normalize(add) || (x in Normalize(origin) && x !in Normalize(remove))
  {
    NormalizeIs(add);
    NormalizeIs(remove);
    NormalizeClean(Normalize(add));
    NormalizeClean(Normalize(remove));
    var merged, gone := Merge(origin, Normalize(add)), Subtract(Normalize(remove), Normalize(add));
    MergeIs(origin, Normalize(add));
    SubtractIs(Normalize(remove), Normalize(add));
    NormalizeClean(merged);
    NormalizeClean(gone);
    SubtractIs(merged, gone);
  }

  /**
   When nothing added was there before and nothing added is removed, the result is the old list without
   the removed names, in order, then the added names in the order they were selected.
   */
  lemma ApplySelectedOrder(origin: seq<string>, add: seq<string>, remove: seq<string>)
    requires Clean(origin) && Clean(add) && Clean(remove)
    requires forall x :: x in add ==> x !in origin && x !in remove
    ensures ApplySelected(origin, add, remove) == Without(origin, remove) + add
  {
    NormalizeClean(origin);
    NormalizeClean(add);
    NormalizeClean(remove);
    PickAll(add, (x: string) => x !in origin);
    PickAll(remove, (x: string) => x !in add);
    assert Merge(origin, add) == origin + add;
    CleanConcat(origin, add);
    NormalizeClean(origin + add);
    assert Subtract(remove, add) == remove;
    PickConcat(origin, add, (x: string) => x !in remove);
    PickAll(add, (x: string) => x !in remove);
  }

  // ---------------------------------------------------------------------------
  // The loops
  // ---------------------------------------------------------------------------

  method NameSet(models: seq<string>) returns (names: set<string>)
    ensures forall x :: x in names <==> x in models
  {
    names := {};
    for i := 0 to |models|
      invariant forall x :: x in names <==> x in models[..i]
    {
      names := names + {models[i]};
    }
    assert models[..|models|] == models;
  }

  method MergeModelNames(base: seq<string>, appended: seq<string>) returns (merged: seq<string>)
    ensures merged == Merge(base, appended)
  {
    merged := Normalize(base);
    var seen := NameSet(merged);
    var more := Normalize(appended);
    NormalizeIs(appended);
    ghost var p := (x: string) => x !in Normalize(base);
    for i := 0 to |more|
      invariant merged == Normalize(base) + Pick(more[..i], p)
      invariant forall x :: x in seen <==> x in Normalize(base) || x in more[..i]
    {
      assert more[..i + 1][..i] == more[..i] && more[i] !in more[..i];
      if more[i] in seen { continue; }
      seen := seen + {more[i]};
      merged := merged + [more[i]];
    }
    assert more[..|more|] == more;
  }
}
