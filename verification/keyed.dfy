/**
 The loop shape both cache builders share: walk the rows in order, skip the
 ones a policy rejects, and store a record for each kept row under its key,
 so that a later kept row with the same key overwrites an earlier one.
 Also the iteration order of the resulting Python dict (first insertion).
 */
module Keyed {

  /** Some kept row has key `k`. */
  ghost predicate HasKept<R>(rows: seq<R>, keep: R -> bool, key: R -> string, k: string) {
    exists i :: 0 <= i < |rows| && keep(rows[i]) && key(rows[i]) == k
  }

  /** Row `i` is kept and no later kept row has its key: its record is the one stored. */
  ghost predicate LastKept<R>(rows: seq<R>, keep: R -> bool, key: R -> string, i: int) {
    && 0 <= i < |rows|
    && keep(rows[i])
    && forall j :: i < j < |rows| && keep(rows[j]) ==> key(rows[j]) != key(rows[i])
  }

  /** Kept keys of `rows` are those of its prefix plus the last row's if kept. */
  lemma HasKeptSnoc<R>(rows: seq<R>, keep: R -> bool, key: R -> string, k: string)
    requires |rows| > 0
    ensures HasKept(rows, keep, key, k) <==>
              HasKept(rows[..|rows| - 1], keep, key, k) || (keep(rows[|rows| - 1]) && key(rows[|rows| - 1]) == k)
  {
    var init := rows[..|rows| - 1];
    if HasKept(rows, keep, key, k) {
      var i :| 0 <= i < |rows| && keep(rows[i]) && key(rows[i]) == k;
      if i < |init| {
        assert init[i] == rows[i];
      }
    }
    if HasKept(init, keep, key, k) {
      var i :| 0 <= i < |init| && keep(init[i]) && key(init[i]) == k;
      assert rows[i] == init[i];
    }
  }

  /** `m = {}; for r in rows: if keep(r): m[key(r)] = rec(r)` */
  function Index<R, V>(rows: seq<R>, keep: R -> bool, key: R -> string, rec: R --> V): (m: map<string, V>)
    requires forall i :: 0 <= i < |rows| && keep(rows[i]) ==> rec.requires(rows[i])
    ensures forall k :: k in m <==> HasKept(rows, keep, key, k)
    decreases |rows|
  {
    if |rows| == 0 then map[]
    else
      var n := |rows| - 1;
      var m0 := Index(rows[..n], keep, key, rec);
      assert forall k :: HasKept(rows, keep, key, k) <==> HasKept(rows[..n], keep, key, k) || (keep(rows[n]) && key(rows[n]) == k) by {
        forall k {
          HasKeptSnoc(rows, keep, key, k);
        }
      }
      if keep(rows[n]) then m0[key(rows[n]) := rec(rows[n])] else m0
  }

  /** Later rows win: the record stored under a key is the one built from the
      last kept row with that key. */
  lemma {:induction false} IndexLastWins<R, V>(rows: seq<R>, keep: R -> bool, key: R -> string, rec: R --> V, i: int)
    requires forall j :: 0 <= j < |rows| && keep(rows[j]) ==> rec.requires(rows[j])
    requires LastKept(rows, keep, key, i)
    ensures key(rows[i]) in Index(rows, keep, key, rec)
    ensures Index(rows, keep, key, rec)[key(rows[i])] == rec(rows[i])
    decreases |rows|
  {
    var n := |rows| - 1;
    var init := rows[..n];
    if i < n {
      assert init[i] == rows[i];
      assert LastKept(init, keep, key, i) by {
        forall j | i < j < |init| && keep(init[j])
          ensures key(init[j]) != key(init[i])
        {
          assert init[j] == rows[j];
        }
      }
      IndexLastWins(init, keep, key, rec, i);
    }
  }

  /** One more row: a kept row stores its record over whatever its key held. */
  lemma IndexSnoc<R, V>(rows: seq<R>, keep: R -> bool, key: R -> string, rec: R --> V)
    requires |rows| > 0
    requires forall j :: 0 <= j < |rows| && keep(rows[j]) ==> rec.requires(rows[j])
    ensures var n := |rows| - 1;
            Index(rows, keep, key, rec) ==
              if keep(rows[n]) then Index(rows[..n], keep, key, rec)[key(rows[n]) := rec(rows[n])]
              else Index(rows[..n], keep, key, rec)
  {
  }

  /** A row that is last with its key in the prefix stays last when the final row
      is dropped or has another key. */
  lemma LastKeptExtend<R>(rows: seq<R>, keep: R -> bool, key: R -> string, i: int)
    requires |rows| > 0
    requires LastKept(rows[..|rows| - 1], keep, key, i)
    requires !keep(rows[|rows| - 1]) || key(rows[|rows| - 1]) != key(rows[i])
    ensures LastKept(rows, keep, key, i)
  {
    var init := rows[..|rows| - 1];
    assert rows[i] == init[i];
    forall j | i < j < |rows| && keep(rows[j])
      ensures key(rows[j]) != key(rows[i])
    {
      if j < |init| {
        assert init[j] == rows[j];
      }
    }
  }

  /** Every stored record comes from the last kept row with its key. */
  lemma {:induction false} IndexFromLastKept<R, V>(rows: seq<R>, keep: R -> bool, key: R -> string, rec: R --> V, k: string)
    requires forall j :: 0 <= j < |rows| && keep(rows[j]) ==> rec.requires(rows[j])
    requires k in Index(rows, keep, key, rec)
    ensures exists i :: LastKept(rows, keep, key, i) && key(rows[i]) == k && Index(rows, keep, key, rec)[k] == rec(rows[i])
    decreases |rows|
  {
    var n := |rows| - 1;
    var init := rows[..n];
    var m := Index(rows, keep, key, rec);
    var m0 := Index(init, keep, key, rec);
    IndexSnoc(rows, keep, key, rec);
    if keep(rows[n]) && key(rows[n]) == k {
      assert LastKept(rows, keep, key, n);
      assert m[k] == rec(rows[n]);
    } else {
      assert k in m0 && m[k] == m0[k];
      IndexFromLastKept(init, keep, key, rec, k);
      var i :| LastKept(init, keep, key, i) && key(init[i]) == k && m0[k] == rec(init[i]);
      assert rows[i] == init[i];
      LastKeptExtend(rows, keep, key, i);
    }
  }

  /** The keys of the kept rows, each once, in the order of their first kept row:
      the iteration order of the dict `Index` builds. */
  function FirstKeys<R>(rows: seq<R>, keep: R -> bool, key: R -> string): (ks: seq<string>)
    ensures forall a, b :: 0 <= a < b < |ks| ==> ks[a] != ks[b]
    ensures forall k :: k in ks <==> HasKept(rows, keep, key, k)
    decreases |rows|
  {
    if |rows| == 0 then []
    else
      var n := |rows| - 1;
      var init := rows[..n];
      var last := rows[n];
      var ks0 := FirstKeys(init, keep, key);
      assert forall k :: HasKept(rows, keep, key, k) <==> HasKept(init, keep, key, k) || (keep(last) && key(last) == k) by {
        forall k {
          HasKeptSnoc(rows, keep, key, k);
        }
      }
      if keep(last) && key(last) !in ks0 then ks0 + [key(last)] else ks0
  }

  /** Keys `ks` are in first-insertion order over `rows`: wherever a later-listed key
      is kept, every earlier-listed key has already been kept before that row. */
  ghost predicate InFirstKeptOrder<R>(rows: seq<R>, keep: R -> bool, key: R -> string, ks: seq<string>) {
    forall a, b, j :: 0 <= a < b < |ks| && 0 <= j < |rows| && keep(rows[j]) && key(rows[j]) == ks[b] ==>
      exists i :: 0 <= i < j && keep(rows[i]) && key(rows[i]) == ks[a]
  }

  /** The order `FirstKeys` lists the keys in is the order of their first kept rows. */
  lemma {:induction false} FirstKeysOrder<R>(rows: seq<R>, keep: R -> bool, key: R -> string)
    ensures InFirstKeptOrder(rows, keep, key, FirstKeys(rows, keep, key))
    decreases |rows|
  {
    if |rows| > 0 {
      var n := |rows| - 1;
      var init := rows[..n];
      var ks0 := FirstKeys(init, keep, key);
      var ks := FirstKeys(rows, keep, key);
      FirstKeysOrder(init, keep, key);
      forall a, b, j | 0 <= a < b < |ks| && 0 <= j < |rows| && keep(rows[j]) && key(rows[j]) == ks[b]
        ensures exists i :: 0 <= i < j && keep(rows[i]) && key(rows[i]) == ks[a]
      {
        assert ks[a] == ks0[a];
        assert HasKept(init, keep, key, ks0[a]);
        if b == |ks0| {
          // ks[b] is the last row's key, new in this step: no earlier row has it
          var i :| 0 <= i < |init| && keep(init[i]) && key(init[i]) == ks[a];
          assert rows[i] == init[i];
        } else {
          assert ks[b] == ks0[b];
          var jj := j;
          if j == n {
            assert HasKept(init, keep, key, ks0[b]);
            jj :| 0 <= jj < |init| && keep(init[jj]) && key(init[jj]) == ks0[b];
          } else {
            assert init[j] == rows[j];
          }
          assert 0 <= a < b < |ks0| && 0 <= jj < |init| && keep(init[jj]) && key(init[jj]) == ks0[b];
          var i :| 0 <= i < jj && keep(init[i]) && key(init[i]) == ks0[a];
          assert rows[i] == init[i];
        }
      }
    }
  }

}
