/**
 The per-database fan-out and merge of `reload`: one fetch per name, results
 taken in the order of the names, each successful map merged into the
 aggregate with `dict.update` (later entries win), and the first failing
 fetch ending the merge with its error. Results are consumed in order even
 when fetched concurrently, so the sequential reading is exact.
 */
module FanOut {
  import opened Basics

  /** The entries merged so far, and the error that stopped the merge, if any. */
  datatype Merged<V, E> = Merged(entries: map<string, V>, failure: Option<E>)

  type Fetch<V, E> = string -> Result<map<string, V>, E>

  /** `for m in executor.map(fetch, names): entries.update(m)`; the error that
      stops the merge is one a fetch returned. */
  function MergeAll<V, E>(fetch: Fetch<V, E>, names: seq<string>): (merged: Merged<V, E>)
    ensures merged.failure.Some? ==> exists j :: 0 <= j < |names| && fetch(names[j]) == Err(merged.failure.value)
    decreases |names|
  {
    if |names| == 0 then Merged(map[], None)
    else
      var n := |names| - 1;
      var prev := MergeAll(fetch, names[..n]);
      assert prev.failure.Some? ==> exists j :: 0 <= j < |names| && fetch(names[j]) == Err(prev.failure.value) by {
        if prev.failure.Some? {
          var j :| 0 <= j < n && fetch(names[..n][j]) == Err(prev.failure.value);
          assert names[..n][j] == names[j];
        }
      }
      if prev.failure.Some? then prev
      else
        match fetch(names[n])
        case Err(e) => Merged(prev.entries, Some(e))
        case Ok(m) => Merged(prev.entries + m, None)
  }

  /** The merge fails exactly when some fetch fails. */
  lemma {:induction false} MergeFailure<V, E>(fetch: Fetch<V, E>, names: seq<string>)
    ensures MergeAll(fetch, names).failure.None? <==> forall j :: 0 <= j < |names| ==> fetch(names[j]).Ok?
    decreases |names|
  {
    if |names| > 0 {
      var init := names[..|names| - 1];
      MergeFailure(fetch, init);
      assert forall j :: 0 <= j < |init| ==> init[j] == names[j];
    }
  }

  /** The error reported is that of the first failing fetch, and the entries are
      exactly those merged from the fetches before it. */
  lemma {:induction false} MergeFirstFailure<V, E>(fetch: Fetch<V, E>, names: seq<string>)
    requires MergeAll(fetch, names).failure.Some?
    ensures exists j ::
              && 0 <= j < |names|
              && fetch(names[j]).Err?
              && (forall i :: 0 <= i < j ==> fetch(names[i]).Ok?)
              && MergeAll(fetch, names) == Merged(MergeAll(fetch, names[..j]).entries, Some(fetch(names[j]).error))
    decreases |names|
  {
    var n := |names| - 1;
    var init := names[..n];
    var prev := MergeAll(fetch, init);
    assert forall i :: 0 <= i < n ==> init[i] == names[i];
    if prev.failure.Some? {
      MergeFirstFailure(fetch, init);
      var j :| && 0 <= j < |init|
               && fetch(init[j]).Err?
               && (forall i :: 0 <= i < j ==> fetch(init[i]).Ok?)
               && prev == Merged(MergeAll(fetch, init[..j]).entries, Some(fetch(init[j]).error));
      assert init[..j] == names[..j];
    } else {
      MergeFailure(fetch, init);
      assert names[..n] == init;
    }
  }

  /** Every merged entry comes from a successful fetch of some name. */
  lemma {:induction false} MergeFrom<V, E>(fetch: Fetch<V, E>, names: seq<string>, k: string)
    requires k in MergeAll(fetch, names).entries
    ensures exists j ::
              && 0 <= j < |names|
              && fetch(names[j]).Ok?
              && k in fetch(names[j]).value
              && MergeAll(fetch, names).entries[k] == fetch(names[j]).value[k]
    decreases |names|
  {
    var n := |names| - 1;
    var init := names[..n];
    var prev := MergeAll(fetch, init);
    if prev.failure.None? && fetch(names[n]).Ok? && k in fetch(names[n]).value {
      assert MergeAll(fetch, names).entries[k] == fetch(names[n]).value[k];
    } else {
      assert k in prev.entries && MergeAll(fetch, names).entries[k] == prev.entries[k];
      MergeFrom(fetch, init, k);
      var j :| && 0 <= j < |init|
               && fetch(init[j]).Ok?
               && k in fetch(init[j]).value
               && prev.entries[k] == fetch(init[j]).value[k];
      assert init[j] == names[j];
    }
  }

  /** Later maps overwrite earlier ones: a fetch whose key no later fetch produces
      decides that key's entry. */
  lemma {:induction false} MergeLastWins<V, E>(fetch: Fetch<V, E>, names: seq<string>, j: int, k: string)
    requires MergeAll(fetch, names).failure.None?
    requires 0 <= j < |names| && fetch(names[j]).Ok? && k in fetch(names[j]).value
    requires forall i :: j < i < |names| && fetch(names[i]).Ok? ==> k !in fetch(names[i]).value
    ensures k in MergeAll(fetch, names).entries
    ensures MergeAll(fetch, names).entries[k] == fetch(names[j]).value[k]
    decreases |names|
  {
    var n := |names| - 1;
    var init := names[..n];
    var prev := MergeAll(fetch, init);
    assert prev.failure.None?;
    if j < n {
      assert init[j] == names[j];
      assert forall i :: j < i < |init| ==> init[i] == names[i];
      MergeLastWins(fetch, init, j, k);
    }
  }

  /** When the merge succeeds, every key of every fetched map is merged. */
  lemma {:induction false} MergeCovers<V, E>(fetch: Fetch<V, E>, names: seq<string>, j: int, k: string)
    requires MergeAll(fetch, names).failure.None?
    requires 0 <= j < |names| && fetch(names[j]).Ok? && k in fetch(names[j]).value
    ensures k in MergeAll(fetch, names).entries
    decreases |names|
  {
    var n := |names| - 1;
    var init := names[..n];
    assert MergeAll(fetch, init).failure.None?;
    if j < n {
      assert init[j] == names[j];
      MergeCovers(fetch, init, j, k);
    }
  }

}
