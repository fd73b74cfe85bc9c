/**
  * Emotion records.
  *
  * The source keeps emotion scores in plain objects (`Record<string, number>`):
  * a key is bound at most once, iteration visits keys in insertion order, and
  * assigning to a key that is already present overwrites its value without
  * moving it. Here such a record is an association list in insertion order,
  * and `Put` is the object assignment `m[k] = v`.
  */
module EmotionScores {

  datatype Option<T> = None | Some(value: T) {
    /** The value held, or `default` when there is none (the source's `??`). */
    function GetOr(default: T): T {
      match this
      case Some(v) => v
      case None => default
    }
  }

  /** Emotion label/score pairs in insertion order. */
  type Scores = seq<(string, real)>

  function Keys(m: Scores): seq<string>
  {
    seq(|m|, i requires 0 <= i < |m| => m[i].0)
  }

  predicate Distinct(ks: seq<string>)
  {
    forall i, j :: 0 <= i < j < |ks| ==> ks[i] != ks[j]
  }

  /** What a JavaScript object guarantees of its keys. */
  predicate UniqueKeys(m: Scores)
  {
    Distinct(Keys(m))
  }

  /** The position of the first binding of `k`, or `|m|` when there is none. */
  function IndexOf(m: Scores, k: string): (i: nat)
    ensures i <= |m|
    ensures i < |m| ==> m[i].0 == k
    ensures forall j :: 0 <= j < i ==> m[j].0 != k
  {
    if m == [] then 0
    else if m[0].0 == k then 0
    else 1 + IndexOf(m[1..], k)
  }

  lemma IndexOfIsFirst(m: Scores, k: string, i: nat)
    requires i <= |m|
    requires i < |m| ==> m[i].0 == k
    requires forall j :: 0 <= j < i ==> m[j].0 != k
    ensures IndexOf(m, k) == i
  {
  }

  lemma InKeys(m: Scores, k: string)
    ensures k in Keys(m) <==> IndexOf(m, k) < |m|
  {
    if k in Keys(m) {
      var j :| 0 <= j < |Keys(m)| && Keys(m)[j] == k;
      assert m[j].0 == k;
    }
    if IndexOf(m, k) < |m| {
      assert Keys(m)[IndexOf(m, k)] == k;
    }
  }

  /** Reading `m[k]`: the value bound to `k`, if any. */
  function Get(m: Scores, k: string): Option<real>
  {
    var i := IndexOf(m, k);
    if i < |m| then Some(m[i].1) else None
  }

  /** In a record with unique keys, the key at position `n` reads back the value there. */
  lemma GetAt(m: Scores, n: nat)
    requires UniqueKeys(m)
    requires n < |m|
    ensures Get(m, m[n].0) == Some(m[n].1)
  {
    forall j | 0 <= j < n
      ensures m[j].0 != m[n].0
    {
      assert Keys(m)[j] != Keys(m)[n];
    }
    IndexOfIsFirst(m, m[n].0, n);
  }

  /** Overwriting the first binding of `k` keeps the keys and changes only what `k` reads. */
  lemma OverwriteAt(m: Scores, k: string, v: real, i: nat)
    requires i < |m| && i == IndexOf(m, k)
    ensures Keys(m[i := (k, v)]) == Keys(m)
    ensures Get(m[i := (k, v)], k) == Some(v)
    ensures forall k' :: k' != k ==> Get(m[i := (k, v)], k') == Get(m, k')
  {
    var r := m[i := (k, v)];
    assert Keys(r) == Keys(m);
    IndexOfIsFirst(r, k, i);
    forall k' | k' != k ensures IndexOf(r, k') == IndexOf(m, k') {
      IndexOfIsFirst(r, k', IndexOf(m, k'));
    }
  }

  /** Appending a binding for a new key `k` changes only what `k` reads. */
  lemma AppendNew(m: Scores, k: string, v: real)
    requires IndexOf(m, k) == |m|
    ensures Keys(m + [(k, v)]) == Keys(m) + [k]
    ensures Get(m + [(k, v)], k) == Some(v)
    ensures forall k' :: k' != k ==> Get(m + [(k, v)], k') == Get(m, k')
  {
    var r := m + [(k, v)];
    assert Keys(r) == Keys(m) + [k];
    IndexOfIsFirst(r, k, |m|);
    forall k' | k' != k ensures Get(r, k') == Get(m, k') {
      var j := IndexOf(m, k');
      if j < |m| {
        IndexOfIsFirst(r, k', j);
      } else {
        IndexOfIsFirst(r, k', |r|);
      }
    }
  }

  /**
    * The assignment `m[k] = v`: a new key is appended, an existing one keeps
    * its position and takes the new value; no other key is affected.
    */
  function Put(m: Scores, k: string, v: real): (r: Scores)
    ensures Keys(r) == if k in Keys(m) then Keys(m) else Keys(m) + [k]
    ensures k !in Keys(m) ==> r == m + [(k, v)]
    ensures Get(r, k) == Some(v)
    ensures forall k' :: k' != k ==> Get(r, k') == Get(m, k')
    ensures UniqueKeys(m) ==> UniqueKeys(r)
  {
    var i := IndexOf(m, k);
    InKeys(m, k);
    if i < |m| then
      OverwriteAt(m, k, v, i);
      m[i := (k, v)]
    else
      AppendNew(m, k, v);
      m + [(k, v)]
  }

  /** The position of the first occurrence of `x` in `ks`, or `|ks|` when there is none. */
  function First(ks: seq<string>, x: string): (i: nat)
    ensures i <= |ks|
    ensures i < |ks| <==> x in ks
    ensures i < |ks| ==> ks[i] == x
    ensures forall j :: 0 <= j < i ==> ks[j] != x
  {
    if ks == [] then 0
    else if ks[0] == x then 0
    else 1 + First(ks[1..], x)
  }

  /** Appending a key leaves the first occurrences of the earlier keys where they were. */
  lemma FirstSnoc(ks: seq<string>, x: string, y: string)
    ensures y in ks ==> First(ks + [x], y) == First(ks, y) < |ks|
    ensures y !in ks && y == x ==> First(ks + [x], y) == |ks|
  {
    var i := First(ks, y);
    var i' := First(ks + [x], y);
    if y in ks {
      assert (ks + [x])[i] == y;
      assert i' < |ks| ==> ks[i'] == y;
    } else if y == x {
      assert (ks + [x])[|ks|] == y;
      assert forall j :: 0 <= j < |ks| ==> (ks + [x])[j] != y;
    }
  }

  /** The keys of `ks` in order of first appearance, each once. */
  function Dedup(ks: seq<string>): (r: seq<string>)
    ensures forall x :: x in r <==> x in ks
    ensures Distinct(r)
  {
    if ks == [] then []
    else
      var d := Dedup(ks[..|ks| - 1]);
      var x := ks[|ks| - 1];
      assert forall y :: y in ks <==> y in ks[..|ks| - 1] || y == x by {
        assert ks == ks[..|ks| - 1] + [x];
      }
      if x in d then d else d + [x]
  }

  /** `Dedup` lists the keys in the order of their first occurrences in `ks`. */
  lemma {:induction false} DedupOrder(ks: seq<string>)
    ensures forall i, j :: 0 <= i < j < |Dedup(ks)| ==> First(ks, Dedup(ks)[i]) < First(ks, Dedup(ks)[j])
  {
    if ks != [] {
      var init := ks[..|ks| - 1];
      var x := ks[|ks| - 1];
      var d := Dedup(init);
      DedupOrder(init);
      assert ks == init + [x];
      forall y | y in d ensures First(ks, y) == First(init, y) < |init| {
        FirstSnoc(init, x, y);
      }
      if x !in d {
        FirstSnoc(init, x, x);
        assert Dedup(ks) == d + [x];
      }
    }
  }

  lemma DedupSnoc(ks: seq<string>, x: string)
    ensures Dedup(ks + [x]) == if x in Dedup(ks) then Dedup(ks) else Dedup(ks) + [x]
  {
    assert (ks + [x])[..|ks|] == ks;
  }

  lemma KeysSnoc(m: Scores, p: (string, real))
    ensures Keys(m + [p]) == Keys(m) + [p.0]
  {
  }

  /** The value bound to `k` in the last pair of `ps` that names it. */
  function LastValue(ps: Scores, k: string): Option<real>
  {
    if ps == [] then None
    else if ps[|ps| - 1].0 == k then Some(ps[|ps| - 1].1)
    else LastValue(ps[..|ps| - 1], k)
  }

  /**
    * The record built by assigning the pairs of `ps` one after the other:
    * its keys are those of `ps` in order of first appearance, and each reads
    * back the value of its last assignment.
    */
  function Assign(ps: Scores): (r: Scores)
    ensures Keys(r) == Dedup(Keys(ps))
    ensures forall k :: Get(r, k) == LastValue(ps, k)
  {
    if ps == [] then []
    else
      var init := ps[..|ps| - 1];
      var last := ps[|ps| - 1];
      assert ps == init + [last];
      KeysSnoc(init, last);
      DedupSnoc(Keys(init), last.0);
      Put(Assign(init), last.0, last.1)
  }

  lemma AssignIsRecord(ps: Scores)
    ensures UniqueKeys(Assign(ps))
  {
  }

  /** The sum of the values bound to `k` in `e`; 0 when `k` is not bound. */
  function ScoreOf(e: Scores, k: string): real
  {
    if e == [] then 0.0
    else ScoreOf(e[..|e| - 1], k) + (if e[|e| - 1].0 == k then e[|e| - 1].1 else 0.0)
  }

  lemma ScoreOfSnoc(e: Scores, p: (string, real), k: string)
    ensures ScoreOf(e + [p], k) == ScoreOf(e, k) + (if p.0 == k then p.1 else 0.0)
  {
    assert (e + [p])[..|e|] == e;
  }

  /** In a record with unique keys, `ScoreOf` is the bound value, or 0 for a missing key. */
  lemma {:induction false} ScoreOfRecord(e: Scores, k: string)
    requires UniqueKeys(e)
    ensures ScoreOf(e, k) == Get(e, k).GetOr(0.0)
  {
    if e != [] {
      var init := e[..|e| - 1];
      var last := e[|e| - 1];
      assert e == init + [last];
      KeysSnoc(init, last);
      assert Keys(init) == Keys(e)[..|e| - 1];
      assert UniqueKeys(init);
      ScoreOfRecord(init, k);
      var i := IndexOf(init, k);
      if i < |init| {
        assert Keys(e)[i] == k;
        assert last.0 != k by {
          assert Keys(e)[i] != Keys(e)[|e| - 1];
        }
        IndexOfIsFirst(e, k, i);
      } else if last.0 == k {
        IndexOfIsFirst(e, k, |init|);
      } else {
        IndexOfIsFirst(e, k, |e|);
      }
    }
  }
}
