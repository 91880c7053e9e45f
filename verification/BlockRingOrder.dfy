/** The ring is a FIFO queue: in the order of their places the results of all calls are what was
    enqueued, and a call that gets its share after another one has returned gets later elements. */
module BlockRingOrder {

  import opened BlockRing
  import opened BlockRingProof
  import opened BlockRingHistory
  import opened BlockRingTheorems
  import A = DequeueAccounting

  // ---- One after the other ----

  /** The values the calls returned, put together. */
  function Joined<T>(results: seq<Result<T>>): seq<T> {
    if results == [] then [] else Joined(results[..|results| - 1]) + results[|results| - 1].values
  }

  ghost predicate Sorted<T>(results: seq<Result<T>>) {
    forall i, j :: 0 <= i < j < |results| ==> results[i].first <= results[j].first
  }

  /** Element x is among the first k results. */
  ghost predicate Covered<T>(results: seq<Result<T>>, k: nat, x: nat)
    requires k <= |results|
  {
    exists i :: 0 <= i < k && Covers(results[i], x)
  }

  /** The results are non-empty runs of the elements, without overlap. */
  ghost predicate Apart<T>(results: seq<Result<T>>, items: seq<T>) {
    && ResultsOk(results, items)
    && (forall i :: 0 <= i < |results| ==> results[i].values != [])
    && (forall i, j, x: nat {:trigger Covers(results[i], x), Covers(results[j], x)} ::
          0 <= i < j < |results| ==> !(Covers(results[i], x) && Covers(results[j], x)))
  }

  /** Exactly the elements below n are among the results. */
  ghost predicate CoversAll<T>(results: seq<Result<T>>, n: nat) {
    forall x: nat :: x < n <==> Covered(results, |results|, x)
  }

  lemma NotBefore<T>(results: seq<Result<T>>, items: seq<T>, k: nat)
    requires Apart(results, items) && k < |results|
    ensures Covers(results[k], results[k].first) && !Covered(results, k, results[k].first)
  {
    assert Covers(results[k], results[k].first);
  }

  lemma NotAfter<T>(results: seq<Result<T>>, k: nat, x: nat)
    requires Sorted(results) && k < |results|
    ensures x < results[k].first && Covered(results, |results|, x) ==> Covered(results, k, x)
  {}

  lemma CoveredNext<T>(results: seq<Result<T>>, k: nat, x: nat)
    requires k < |results|
    ensures Covered(results, k + 1, x) <==> Covered(results, k, x) || Covers(results[k], x)
  {
    if Covered(results, k + 1, x) {
      var i :| 0 <= i < k + 1 && Covers(results[i], x);
      assert i < k ==> Covered(results, k, x);
    }
  }

  /** The next result starts where the ones before it end. */
  lemma NextPlace<T>(results: seq<Result<T>>, items: seq<T>, n: nat, k: nat, m: nat)
    requires Apart(results, items) && Sorted(results) && CoversAll(results, n) && k < |results|
    requires forall x: nat :: x < m <==> Covered(results, k, x)
    ensures results[k].first == m
  {
    NotBefore(results, items, k);
    NotAfter(results, k, m);
    assert Covered(results, |results|, results[k].first);
    hide Apart, Sorted, Covered;
  }

  /** The first k of the sorted results are the first elements, in order. */
  lemma {:induction false} SortedJoins<T>(results: seq<Result<T>>, items: seq<T>, n: nat, k: nat)
    requires Apart(results, items) && Sorted(results) && CoversAll(results, n) && k <= |results|
    ensures |Joined(results[..k])| <= |items| && Joined(results[..k]) == items[..|Joined(results[..k])|]
    ensures forall x: nat :: x < |Joined(results[..k])| <==> Covered(results, k, x)
    decreases k
  {
    if k > 0 {
      SortedJoins(results, items, n, k - 1);
      var r, m := results[k - 1], |Joined(results[..k - 1])|;
      NextPlace(results, items, n, k - 1, m);
      assert r.first + |r.values| <= |items| && r.values == items[m..m + |r.values|];
      hide Apart, Sorted, CoversAll, Covered;
      assert results[..k][..k - 1] == results[..k - 1];
      assert Joined(results[..k]) == items[..m] + items[m..m + |r.values|];
      forall x: nat ensures x < m + |r.values| <==> Covered(results, k, x) { CoveredNext(results, k - 1, x); }
    }
  }

  lemma Twice<V>(s: seq<V>, v: V)
    requires 2 <= multiset(s)[v]
    ensures exists a, b :: 0 <= a < b < |s| && s[a] == v && s[b] == v
  {
    assert v in multiset(s);
    var a :| 0 <= a < |s| && s[a] == v;
    var rest := s[..a] + s[a + 1..];
    assert s == s[..a] + [s[a]] + s[a + 1..];
    assert v in multiset(rest);
    var b :| 0 <= b < |rest| && rest[b] == v;
    assert if b < a then s[b] == v else s[b + 1] == v;
  }

  /** Two places of a rearrangement are two places of the original. */
  lemma TwoPlaces<V>(s: seq<V>, s': seq<V>, i: nat, j: nat) returns (a: nat, b: nat)
    requires multiset(s) == multiset(s') && i < j < |s'|
    ensures a < |s| && b < |s| && a != b && s[a] == s'[i] && s[b] == s'[j]
  {
    assert s'[i] in multiset(s) && s'[j] in multiset(s);
    if s'[i] == s'[j] {
      assert s' == s'[..i] + [s'[i]] + s'[i + 1..j] + [s'[j]] + s'[j + 1..];
      Twice(s, s'[i]);
      a, b :| 0 <= a < b < |s| && s[a] == s'[i] && s[b] == s'[i];
    } else {
      a :| 0 <= a < |s| && s[a] == s'[i];
      b :| 0 <= b < |s| && s[b] == s'[j];
    }
  }

  lemma RearrangedApart<T>(results: seq<Result<T>>, sorted: seq<Result<T>>, items: seq<T>)
    requires Apart(results, items) && multiset(sorted) == multiset(results)
    ensures Apart(sorted, items)
  {
    forall i | 0 <= i < |sorted| ensures sorted[i] in results { assert sorted[i] in multiset(results); }
    forall i, j, x: nat | 0 <= i < j < |sorted| ensures !(Covers(sorted[i], x) && Covers(sorted[j], x)) {
      var a, b := TwoPlaces(results, sorted, i, j);
      assert !(Covers(results[a], x) && Covers(results[b], x));
    }
  }

  lemma SameCover<T>(results: seq<Result<T>>, sorted: seq<Result<T>>, x: nat)
    requires multiset(sorted) == multiset(results) && Covered(results, |results|, x)
    ensures Covered(sorted, |sorted|, x)
  {
    var a :| 0 <= a < |results| && Covers(results[a], x);
    assert results[a] in multiset(sorted);
    var i :| 0 <= i < |sorted| && sorted[i] == results[a];
  }

  lemma RearrangedCovers<T>(results: seq<Result<T>>, sorted: seq<Result<T>>, n: nat)
    requires CoversAll(results, n) && multiset(sorted) == multiset(results)
    ensures CoversAll(sorted, n)
  {
    hide Covered;
    forall x: nat ensures Covered(results, |results|, x) <==> Covered(sorted, |sorted|, x) {
      if Covered(results, |results|, x) { SameCover(results, sorted, x); }
      if Covered(sorted, |sorted|, x) { SameCover(sorted, results, x); }
    }
  }

  /** Whenever every `dequeue` has returned, the values they returned, in the order of their places, are
      exactly the arguments of the first `enqueue` calls that returned true, in that order: nothing
      lost, repeated or swapped. */
  lemma FifoOrder<T(!new)>(run: seq<State<T>>, at: nat, sorted: seq<Result<T>>)
    requires IsRun(run) && at < |run| && forall t :: t in run[at].pc ==> run[at].pc[t].NoShare?
    requires multiset(sorted) == multiset(run[at].results) && Sorted(sorted)
    ensures run[at].acc.head <= |Enqueued(run, at)| && Joined(sorted) == Enqueued(run, at)[..run[at].acc.head]
  {
    var s := run[at];
    RunInv(run, at);
    RunShares(run, at);
    AllReturned(s);
    ItemsAreEnqueued(run, at);
    hide IsRun, Enqueued, Inv, SharesNow, Apart, CoversAll, Sorted, Covered;
    AllJoined(s.results, sorted, s.acc.items, s.acc.head);
  }

  lemma AllJoined<T>(results: seq<Result<T>>, sorted: seq<Result<T>>, items: seq<T>, n: nat)
    requires Apart(results, items) && CoversAll(results, n) && n <= |items|
    requires multiset(sorted) == multiset(results) && Sorted(sorted)
    ensures Joined(sorted) == items[..n]
  {
    RearrangedApart(results, sorted, items);
    RearrangedCovers(results, sorted, n);
    SortedJoins(sorted, items, n, |sorted|);
    assert sorted[..|sorted|] == sorted;
    var m := |Joined(sorted)|;
    hide Apart, Sorted, Covered, Joined;
    assert !Covered(sorted, |sorted|, m);
    assert n <= m;
    assert m <= n by { assert !Covered(sorted, |sorted|, n); }
  }

  lemma AllReturned<T>(s: State<T>)
    requires Inv(s) && SharesNow(s) && forall t :: t in s.pc ==> s.pc[t].NoShare?
    ensures s.acc.head <= |s.acc.items| && Apart(s.results, s.acc.items) && CoversAll(s.results, s.acc.head)
  {
    assert AccountingOk(s.acc, s.owner, s.pc, s.read) && ResultsOk(s.results, s.acc.items);
    A.HeadBehindTail(s.acc);
    assert |s.owner| == s.acc.head;
    hide Inv, AccountingOk, ResultsOk;
    SharesCover(s.owner, s.pc, s.results);
  }

  lemma SharesCover<T>(owner: seq<Tid>, pc: map<Tid, Consumer<T>>, results: seq<Result<T>>)
    requires SharesOk(owner, pc, results) && forall t :: t in pc ==> pc[t].NoShare?
    ensures CoversAll(results, |owner|)
  {
    forall x: nat ensures x < |owner| <==> Covered(results, |results|, x) {
      if x < |owner| { assert Accounted(owner[x], x, pc, results); }
    }
  }

  // ---- One call after the other ----

  lemma StepGrows<T(!new)>(s: State<T>, s': State<T>)
    requires Inv(s) && Next(s, s')
    ensures s.owner <= s'.owner && s.results <= s'.results
  {
    hide Inv, ProducerNext, ConsumerStep, ConsumerReady, A.Access, A.PcOk, A.Call;
    if ProducerNext(s, s') {
      ProducerKeeps(s, s');
    } else if t :| t in s.pc && !s.pc[t].NoShare? && ConsumerReady(s, s.pc[t]) && s' == ConsumerStep(s, t) {
      ConsumerGrows(s, t);
    }
  }

  lemma ConsumerGrows<T>(s: State<T>, t: Tid)
    requires Inv(s) && t in s.pc && !s.pc[t].NoShare? && ConsumerReady(s, s.pc[t])
    ensures ConsumerStep(s, t).owner == s.owner && s.results <= ConsumerStep(s, t).results
  {
    assert ThreadNow(s, t);
    hide Inv, ThreadNow, ConsumerStep, ConsumerReady;
    ConsumerShape(s, t);
  }

  lemma {:induction false} Grows<T(!new)>(run: seq<State<T>>, early: nat, late: nat)
    requires IsRun(run) && early <= late < |run|
    ensures run[early].owner <= run[late].owner && run[early].results <= run[late].results
  {
    hide Next, Inv;
    if early < late {
      Grows(run, early, late - 1);
      RunInv(run, late - 1);
      assert Next(run[late - 1], run[late - 1 + 1]);
      StepGrows(run[late - 1], run[late]);
    }
  }

  lemma NotAccounted<T>(t: Tid, x: nat, pc: map<Tid, Consumer<T>>, results: seq<Result<T>>)
    requires t in pc && pc[t].NoShare? && !Covered(results, |results|, x)
    ensures !Accounted(t, x, pc, results)
  {}

  lemma TakenLater<T>(owner: seq<Tid>, owner': seq<Tid>, pc: map<Tid, Consumer<T>>, results: seq<Result<T>>, t: Tid, x: nat)
    requires SharesOk(owner, pc, results) && owner <= owner' && x < |owner'| && owner'[x] == t
    requires t in pc && pc[t].NoShare? && !Covered(results, |results|, x)
    ensures |owner| <= x
  {
    NotAccounted(t, x, pc, results);
    hide Accounted;
    assert x < |owner| ==> Accounted(t, x, pc, results);
  }

  /** A call that has not been given its share when another one has returned gets later elements: results
      respect the order of calls that do not overlap. */
  lemma LaterCallLaterElements<T(!new)>(run: seq<State<T>>, early: nat, late: nat, i: nat, j: nat)
    requires IsRun(run) && early <= late < |run|
    requires i < |run[early].results| <= j < |run[late].results|
    requires var t := run[late].results[j].t; t in run[early].pc && run[early].pc[t].NoShare?
    ensures run[early].results[i] == run[late].results[i]
    ensures run[late].results[i].first + |run[late].results[i].values| <= run[late].results[j].first
  {
    Grows(run, early, late);
    RunShares(run, early);
    RunShares(run, late);
    var s, s' := run[early], run[late];
    var r, r' := s.results[i], s'.results[j];
    hide IsRun;
    assert Covers(r, r.first + |r.values| - 1) && Covers(r', r'.first);
    assert forall a :: 0 <= a < |s.results| ==> s.results[a] == s'.results[a];
    assert !Covered(s.results, |s.results|, r'.first);
    TakenLater(s.owner, s'.owner, s.pc, s.results, r'.t, r'.first);
  }
}
