/** Lists of instants: dropping the ones past a target, and closing the list with the target. */
module TimeLists {
  import opened GoTime

  /** The first `n` of the times, without those that lie after the target. */
  function KeptTimes(target: Instant, times: seq<Instant>, n: nat): seq<Instant>
    requires n <= |times|
  {
    if n == 0 then []
    else
      var kept := KeptTimes(target, times, n - 1);
      if times[n - 1] > target then kept else kept + [times[n - 1]]
  }

  /** The target is appended unless it is already the last time. */
  function Closed(target: Instant, kept: seq<Instant>): seq<Instant> {
    if kept == [] || kept[|kept| - 1] != target then kept + [target] else kept
  }

  predicate Sorted(s: seq<Instant>) {
    forall i, j :: 0 <= i < j < |s| ==> s[i] <= s[j]
  }

  predicate StrictlySorted(s: seq<Instant>) {
    forall i, j :: 0 <= i < j < |s| ==> s[i] < s[j]
  }

  /** On sorted times, dropping the ones past the target keeps a prefix. */
  lemma {:induction false} KeptIsPrefix(target: Instant, times: seq<Instant>, n: nat) returns (k: nat)
    requires n <= |times| && Sorted(times)
    ensures k <= n && KeptTimes(target, times, n) == times[..k]
    ensures forall i :: 0 <= i < n ==> (i < k <==> times[i] <= target)
  {
    if n == 0 {
      k := 0;
    } else {
      k := KeptIsPrefix(target, times, n - 1);
      if times[n - 1] <= target {
        assert forall i :: 0 <= i < n - 1 ==> times[i] <= times[n - 1] <= target;
        assert k == n - 1;
        k := n;
      }
    }
  }

  /** A sorted list that starts no earlier than `first`, cut at the target and closed with it. */
  lemma ClosedShape(first: Instant, target: Instant, times: seq<Instant>) returns (k: nat)
    requires first <= target && Sorted(times)
    requires forall i :: 0 <= i < |times| ==> first <= times[i]
    ensures var ts := Closed(target, KeptTimes(target, times, |times|));
      && |ts| > 0 && ts[|ts| - 1] == target
      && Sorted(ts)
      && (forall i :: 0 <= i < |ts| ==> first <= ts[i] <= target)
      && k <= |times| && (ts == times[..k] || ts == times[..k] + [target])
      && (forall i :: 0 <= i < |times| ==> (i < k <==> times[i] <= target))
      && (StrictlySorted(ts) <==> StrictlySorted(times[..k]))
  {
    k := KeptIsPrefix(target, times, |times|);
    hide KeptTimes;
    AppendShape(first, target, times[..k]);
  }

  lemma AppendShape(first: Instant, target: Instant, kept: seq<Instant>)
    requires first <= target && Sorted(kept)
    requires forall i :: 0 <= i < |kept| ==> first <= kept[i] <= target
    ensures var ts := Closed(target, kept);
      && ts[|ts| - 1] == target
      && Sorted(ts)
      && (forall i :: 0 <= i < |ts| ==> first <= ts[i] <= target)
      && (StrictlySorted(ts) <==> StrictlySorted(kept))
  {
    var ts := Closed(target, kept);
    if ts != kept {
      forall i | 0 <= i < |kept|
        ensures ts[i] == kept[i] < target
      {
        assert i < |kept| - 1 ==> kept[i] <= kept[|kept| - 1];
      }
      if StrictlySorted(ts) {
        forall i, j | 0 <= i < j < |kept|
          ensures kept[i] < kept[j]
        {
          assert ts[i] < ts[j];
        }
      }
    }
  }
}
