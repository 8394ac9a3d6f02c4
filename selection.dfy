/** What `randomTargets` does with the `DescribeInstances` reply, shared by
    both variants: every reservation's instances are shuffled in place by
    `rand.Shuffle`, the eligible instance IDs are collected reservation by
    reservation, and collection stops at the target limit. The batched variant
    treats Windows instances as ineligible; the poll-loop variant takes them all.

    `rand.Shuffle` is modelled as the Fisher–Yates walk it performs (position
    `i` from the last down to 1 is swapped with a position drawn from [0, i]);
    the random draws are a parameter, so every result is some permutation. */
module Selection {
  import opened Outcomes

  /** The part of an `ec2.Instance` the tool reads. `platform` is nil (`None`)
      for Linux instances. */
  datatype Instance = Instance(instanceId: string, platform: Option<string>)

  /** An `ec2.Reservation`: a group of instances launched together. */
  datatype Reservation = Reservation(instances: seq<Instance>)

  const NoInstancesFound := "no instances found for targets"
  const WindowsPlatform := "windows"

  function Swap(s: seq<Instance>, i: nat, j: nat): (r: seq<Instance>)
    requires i < |s| && j < |s|
    ensures |r| == |s|
  {
    s[i := s[j]][j := s[i]]
  }

  /** The position drawn at step `step` for position `i`: `draws[step]`
      reduced into [0, i]; a missing draw leaves position `i` in place. */
  function Pick(draws: seq<nat>, step: nat, i: nat): (j: nat)
    ensures j <= i
  {
    if step < |draws| then draws[step] % (i + 1) else i
  }

  /** Fisher–Yates over positions `i`, `i - 1`, ..., 1. */
  function ShuffleFrom(s: seq<Instance>, i: nat, draws: seq<nat>): (r: seq<Instance>)
    requires i < |s|
    ensures |r| == |s|
    decreases i
  {
    if i == 0 then s
    else ShuffleFrom(Swap(s, i, Pick(draws, |s| - 1 - i, i)), i - 1, draws)
  }

  /** `rand.Shuffle(len(s), swap)` over a list of instances. */
  function Shuffle(s: seq<Instance>, draws: seq<nat>): (r: seq<Instance>)
    ensures |r| == |s|
  {
    if |s| == 0 then s else ShuffleFrom(s, |s| - 1, draws)
  }

  lemma {:induction false} ShuffleFromPermutes(s: seq<Instance>, i: nat, draws: seq<nat>)
    requires i < |s|
    ensures multiset(ShuffleFrom(s, i, draws)) == multiset(s)
    decreases i
  {
    if i > 0 {
      var j := Pick(draws, |s| - 1 - i, i);
      var t := Swap(s, i, j);
      assert multiset(t) == multiset(s) by {
        assert multiset(s[i := s[j]]) == multiset(s) - multiset{s[i]} + multiset{s[j]};
      }
      ShuffleFromPermutes(t, i - 1, draws);
    }
  }

  /** Whatever the draws, the shuffle is a permutation. */
  lemma ShufflePermutes(s: seq<Instance>, draws: seq<nat>)
    ensures multiset(Shuffle(s, draws)) == multiset(s)
  {
    if |s| > 0 {
      ShuffleFromPermutes(s, |s| - 1, draws);
    }
  }

  /** The in-place shuffle of `reservation.Instances`. */
  method ShuffleInPlace(a: array<Instance>, draws: seq<nat>)
    modifies a
    ensures a[..] == Shuffle(old(a[..]), draws)
  {
    if a.Length == 0 {
      return;
    }
    var i := a.Length - 1;
    while i > 0
      invariant 0 <= i < a.Length
      invariant ShuffleFrom(a[..], i, draws) == Shuffle(old(a[..]), draws)
    {
      ghost var before := a[..];
      var j := Pick(draws, a.Length - 1 - i, i);
      var t := a[i];
      a[i] := a[j];
      a[j] := t;
      assert a[..] == Swap(before, i, j);
      i := i - 1;
    }
  }

  /** The draws of the shuffle of reservation `k`. */
  function DrawsFor(draws: seq<seq<nat>>, k: nat): seq<nat>
  {
    if k < |draws| then draws[k] else []
  }

  /** The instance lists as `DescribeInstances` returned them. */
  function Groups(reservations: seq<Reservation>): seq<seq<Instance>>
  {
    seq(|reservations|, k requires 0 <= k < |reservations| => reservations[k].instances)
  }

  /** The instance lists after each reservation has been shuffled. */
  function Shuffled(reservations: seq<Reservation>, draws: seq<seq<nat>>): (groups: seq<seq<Instance>>)
    ensures |groups| == |reservations|
    ensures forall k :: 0 <= k < |groups| ==> multiset(groups[k]) == multiset(reservations[k].instances)
  {
    ShuffledPermutes(reservations, draws);
    seq(|reservations|, k requires 0 <= k < |reservations| => Shuffle(reservations[k].instances, DrawsFor(draws, k)))
  }

  lemma ShuffledPermutes(reservations: seq<Reservation>, draws: seq<seq<nat>>)
    ensures forall k :: 0 <= k < |reservations| ==>
      multiset(Shuffle(reservations[k].instances, DrawsFor(draws, k))) == multiset(reservations[k].instances)
  {
    forall k | 0 <= k < |reservations|
      ensures multiset(Shuffle(reservations[k].instances, DrawsFor(draws, k))) == multiset(reservations[k].instances)
    {
      ShufflePermutes(reservations[k].instances, DrawsFor(draws, k));
    }
  }

  /** Whether `randomTargets` collects the instance. With `skipWindows`, an
      instance whose platform is "windows" is passed over; a nil platform is
      kept. */
  predicate Eligible(inst: Instance, skipWindows: bool)
  {
    !(skipWindows && inst.platform == Some(WindowsPlatform))
  }

  /** The IDs of the eligible instances of one list, in list order. */
  function EligibleIds(instances: seq<Instance>, skipWindows: bool): seq<string>
  {
    if |instances| == 0 then []
    else
      var last := instances[|instances| - 1];
      EligibleIds(instances[..|instances| - 1], skipWindows)
        + (if Eligible(last, skipWindows) then [last.instanceId] else [])
  }

  /** The IDs collected when no limit intervenes: group after group, each in
      its own order. */
  function Candidates(groups: seq<seq<Instance>>, skipWindows: bool): seq<string>
  {
    if |groups| == 0 then []
    else Candidates(groups[..|groups| - 1], skipWindows) + EligibleIds(groups[|groups| - 1], skipWindows)
  }

  /** The limit rule: with a limit of at least one, collection stops as soon as
      that many IDs are collected; a limit below one is never reached; an empty
      collection is an error. */
  function Choose(candidates: seq<string>, limit: int): (r: Result<seq<string>>)
    ensures r.Err? <==> |candidates| == 0
    ensures r.Err? ==> r.error == NoInstancesFound
    ensures r.Ok? ==> 1 <= |r.value| <= |candidates| && r.value == candidates[..|r.value|]
    ensures r.Ok? && limit >= 1 ==> |r.value| == if |candidates| < limit then |candidates| else limit
    ensures r.Ok? && limit < 1 ==> r.value == candidates
  {
    if 1 <= limit <= |candidates| then Ok(candidates[..limit])
    else if |candidates| == 0 then Err(NoInstancesFound)
    else Ok(candidates)
  }

  /** `randomTargets` after `DescribeInstances` answered `described`. */
  function SelectTargets(described: Result<seq<Reservation>>, limit: int, draws: seq<seq<nat>>,
                         skipWindows: bool): Result<seq<string>>
  {
    match described
    case Err(e) => Err(e)
    case Ok(reservations) => Choose(Candidates(Shuffled(reservations, draws), skipWindows), limit)
  }

  /** The number of eligible instances `DescribeInstances` reported. */
  function EligibleCount(reservations: seq<Reservation>, skipWindows: bool): nat
  {
    |Candidates(Groups(reservations), skipWindows)|
  }

  lemma {:induction false} EligibleIdsAppend(a: seq<Instance>, b: seq<Instance>, skipWindows: bool)
    ensures EligibleIds(a + b, skipWindows) == EligibleIds(a, skipWindows) + EligibleIds(b, skipWindows)
    decreases |b|
  {
    if |b| == 0 {
      assert a + b == a;
    } else {
      var n := |b| - 1;
      assert (a + b)[..|a + b| - 1] == a + b[..n];
      EligibleIdsAppend(a, b[..n], skipWindows);
    }
  }

  lemma {:induction false} CandidatesAppend(g: seq<seq<Instance>>, h: seq<seq<Instance>>, skipWindows: bool)
    ensures Candidates(g + h, skipWindows) == Candidates(g, skipWindows) + Candidates(h, skipWindows)
    decreases |h|
  {
    if |h| == 0 {
      assert g + h == g;
    } else {
      var n := |h| - 1;
      var gh := g + h;
      assert gh[..|gh| - 1] == g + h[..n] && gh[|gh| - 1] == h[n];
      assert Candidates(gh, skipWindows) == Candidates(g + h[..n], skipWindows) + EligibleIds(h[n], skipWindows);
      assert Candidates(h, skipWindows) == Candidates(h[..n], skipWindows) + EligibleIds(h[n], skipWindows);
      CandidatesAppend(g, h[..n], skipWindows);
    }
  }

  /** Taking instance `k` out of a list takes its ID, if eligible, out of the
      eligible IDs. */
  lemma EligibleIdsRemove(t: seq<Instance>, k: nat, skipWindows: bool)
    requires k < |t|
    ensures multiset(EligibleIds(t, skipWindows))
         == multiset(EligibleIds(t[..k] + t[k + 1..], skipWindows)) + multiset(EligibleIds([t[k]], skipWindows))
  {
    var before, after := t[..k], t[k + 1..];
    assert t == before + [t[k]] + after;
    EligibleIdsAppend(before + [t[k]], after, skipWindows);
    EligibleIdsAppend(before, [t[k]], skipWindows);
    EligibleIdsAppend(before, after, skipWindows);
  }

  /** Reordering a list of instances only reorders its eligible IDs. */
  lemma {:induction false} EligibleIdsPermutation(s: seq<Instance>, t: seq<Instance>, skipWindows: bool)
    requires multiset(s) == multiset(t)
    ensures multiset(EligibleIds(s, skipWindows)) == multiset(EligibleIds(t, skipWindows))
    decreases |s|
  {
    if |s| == 0 {
      assert |t| == |multiset(t)| == 0;
    } else {
      var n := |s| - 1;
      var x := s[n];
      assert x in multiset(t) by {
        assert s == s[..n] + [x];
      }
      var k :| 0 <= k < |t| && t[k] == x;
      var rest := t[..k] + t[k + 1..];
      assert multiset(s[..n]) == multiset(rest) by {
        assert s == s[..n] + [x];
        assert t == t[..k] + [x] + t[k + 1..];
        assert multiset(s) == multiset(s[..n]) + multiset{x};
        assert multiset(t) == multiset(t[..k]) + multiset{x} + multiset(t[k + 1..]);
        assert multiset(rest) == multiset(t[..k]) + multiset(t[k + 1..]);
        assert multiset(s[..n]) == multiset(s) - multiset{x};
        assert multiset(rest) == multiset(t) - multiset{x};
      }
      EligibleIdsPermutation(s[..n], rest, skipWindows);
      EligibleIdsRemove(t, k, skipWindows);
      EligibleIdsRemove(s, n, skipWindows);
      assert s[..n] + s[n + 1..] == s[..n];
    }
  }

  lemma {:induction false} CandidatesPermutation(g: seq<seq<Instance>>, h: seq<seq<Instance>>, skipWindows: bool)
    requires |g| == |h| && forall k :: 0 <= k < |g| ==> multiset(g[k]) == multiset(h[k])
    ensures multiset(Candidates(g, skipWindows)) == multiset(Candidates(h, skipWindows))
    decreases |g|
  {
    if |g| > 0 {
      var n := |g| - 1;
      assert forall k :: 0 <= k < n ==> g[..n][k] == g[k] && h[..n][k] == h[k];
      CandidatesPermutation(g[..n], h[..n], skipWindows);
      EligibleIdsPermutation(g[n], h[n], skipWindows);
    }
  }

  /** Shuffling changes neither how many IDs are available nor which. */
  lemma ShuffledCandidates(reservations: seq<Reservation>, draws: seq<seq<nat>>, skipWindows: bool)
    ensures multiset(Candidates(Shuffled(reservations, draws), skipWindows))
         == multiset(Candidates(Groups(reservations), skipWindows))
    ensures |Candidates(Shuffled(reservations, draws), skipWindows)| == EligibleCount(reservations, skipWindows)
  {
    CandidatesPermutation(Shuffled(reservations, draws), Groups(reservations), skipWindows);
    assert |multiset(Candidates(Shuffled(reservations, draws), skipWindows))|
        == |multiset(Candidates(Groups(reservations), skipWindows))|;
  }

  lemma {:induction false} InEligibleIds(s: seq<Instance>, skipWindows: bool, id: string)
    requires id in EligibleIds(s, skipWindows)
    ensures exists inst :: inst in s && Eligible(inst, skipWindows) && inst.instanceId == id
    decreases |s|
  {
    var n := |s| - 1;
    if id in EligibleIds(s[..n], skipWindows) {
      InEligibleIds(s[..n], skipWindows, id);
      var inst :| inst in s[..n] && Eligible(inst, skipWindows) && inst.instanceId == id;
      assert inst in s;
    } else {
      assert s[n] in s;
    }
  }

  lemma {:induction false} InCandidates(g: seq<seq<Instance>>, skipWindows: bool, id: string)
    requires id in Candidates(g, skipWindows)
    ensures exists k, inst :: 0 <= k < |g| && inst in g[k] && Eligible(inst, skipWindows) && inst.instanceId == id
    decreases |g|
  {
    var n := |g| - 1;
    if id in Candidates(g[..n], skipWindows) {
      InCandidates(g[..n], skipWindows, id);
      var k, inst :| 0 <= k < n && inst in g[..n][k] && Eligible(inst, skipWindows) && inst.instanceId == id;
      assert g[..n][k] == g[k];
    } else {
      InEligibleIds(g[n], skipWindows, id);
    }
  }

  /** Every chosen ID belongs to an eligible instance of one of the reported
      reservations; with `skipWindows` no Windows instance is ever chosen. */
  lemma ChosenAreEligible(reservations: seq<Reservation>, limit: int, draws: seq<seq<nat>>,
                          skipWindows: bool, id: string)
    requires SelectTargets(Ok(reservations), limit, draws, skipWindows).Ok?
    requires id in SelectTargets(Ok(reservations), limit, draws, skipWindows).value
    ensures exists k, inst :: 0 <= k < |reservations| && inst in reservations[k].instances
                              && Eligible(inst, skipWindows) && inst.instanceId == id
  {
    var g := Shuffled(reservations, draws);
    var ids := SelectTargets(Ok(reservations), limit, draws, skipWindows).value;
    assert id in Candidates(g, skipWindows);
    InCandidates(g, skipWindows, id);
    var k, inst :| 0 <= k < |g| && inst in g[k] && Eligible(inst, skipWindows) && inst.instanceId == id;
    assert inst in multiset(g[k]);
  }

  /** How many IDs come back: exactly `limit` when at least that many eligible
      instances exist, all of them when the limit is below one or not reached,
      and an error exactly when there is no eligible instance at all. */
  lemma SelectionSize(reservations: seq<Reservation>, limit: int, draws: seq<seq<nat>>, skipWindows: bool)
    ensures var r := SelectTargets(Ok(reservations), limit, draws, skipWindows);
            var n := EligibleCount(reservations, skipWindows);
            && (r.Err? <==> n == 0)
            && (r.Ok? && 1 <= limit <= n ==> |r.value| == limit)
            && (r.Ok? && (limit < 1 || n < limit) ==> |r.value| == n)
  {
    ShuffledCandidates(reservations, draws, skipWindows);
  }

  /** The candidates split around group `k`. */
  lemma CandidatesAround(groups: seq<seq<Instance>>, k: nat, skipWindows: bool)
    requires k < |groups|
    ensures Candidates(groups, skipWindows)
            == Candidates(groups[..k], skipWindows) + EligibleIds(groups[k], skipWindows) + Candidates(groups[k + 1..], skipWindows)
  {
    var upTo := groups[..k + 1];
    assert groups == upTo + groups[k + 1..];
    CandidatesAppend(upTo, groups[k + 1..], skipWindows);
    assert upTo[..k] == groups[..k];
  }

  /** The eligible IDs of a list split at position `m`. */
  lemma EligibleIdsSplit(g: seq<Instance>, m: nat, skipWindows: bool)
    requires m <= |g|
    ensures EligibleIds(g, skipWindows) == EligibleIds(g[..m], skipWindows) + EligibleIds(g[m..], skipWindows)
  {
    assert g == g[..m] + g[m..];
    EligibleIdsAppend(g[..m], g[m..], skipWindows);
  }

  /** What has been collected part-way through reservation `k` is a prefix of
      what collecting everything would give. */
  lemma CollectedPrefix(groups: seq<seq<Instance>>, k: nat, m: nat, skipWindows: bool)
    requires k < |groups| && m <= |groups[k]|
    ensures var collected := Candidates(groups[..k], skipWindows) + EligibleIds(groups[k][..m], skipWindows);
            var all := Candidates(groups, skipWindows);
            |collected| <= |all| && all[..|collected|] == collected
  {
    CandidatesAround(groups, k, skipWindows);
    EligibleIdsSplit(groups[k], m, skipWindows);
    PrefixOfSum(Candidates(groups[..k], skipWindows), EligibleIds(groups[k][..m], skipWindows),
                EligibleIds(groups[k][m..], skipWindows), Candidates(groups[k + 1..], skipWindows),
                Candidates(groups, skipWindows));
  }

  lemma PrefixOfSum(a: seq<string>, b: seq<string>, c: seq<string>, d: seq<string>, all: seq<string>)
    requires all == a + (b + c) + d
    ensures |a + b| <= |all| && all[..|a + b|] == a + b
  {
    assert all == (a + b) + (c + d);
  }

  /** The array shuffled for reservation `k` holds group `k` of `Shuffled`. */
  lemma ShuffledAt(reservations: seq<Reservation>, draws: seq<seq<nat>>, k: nat, shuffled: seq<Instance>)
    requires k < |reservations|
    requires shuffled == Shuffle(reservations[k].instances, DrawsFor(draws, k))
    ensures Shuffled(reservations, draws)[k] == shuffled
  {
  }

  /** Collecting all of group `k` extends the candidates of the groups before
      it to those of the first `k + 1`. */
  lemma CandidatesStep(groups: seq<seq<Instance>>, k: nat, skipWindows: bool, used: nat)
    requires k < |groups| && used == |groups[k]|
    ensures Candidates(groups[..k], skipWindows) + EligibleIds(groups[k][..used], skipWindows)
            == Candidates(groups[..k + 1], skipWindows)
  {
    assert groups[..k + 1][..k] == groups[..k];
    assert groups[k][..used] == groups[k];
  }

  /** The inner loop of `randomTargets` over one shuffled reservation: appends
      the eligible IDs in order and stops as soon as the limit is reached. On
      stopping, `used` is how many instances were visited. */
  method CollectGroup(group: seq<Instance>, ids: seq<string>, limit: int, skipWindows: bool)
    returns (collected: seq<string>, full: bool, used: nat)
    requires limit >= 1 ==> |ids| < limit
    ensures used <= |group| && collected == ids + EligibleIds(group[..used], skipWindows)
    ensures full ==> limit >= 1 && |collected| == limit
    ensures !full ==> used == |group| && (limit >= 1 ==> |collected| < limit)
  {
    collected, full, used := ids, false, 0;
    assert group[..0] == [];
    while used < |group|
      invariant 0 <= used <= |group|
      invariant collected == ids + EligibleIds(group[..used], skipWindows)
      invariant limit >= 1 ==> |collected| < limit
    {
      var instance := group[used];
      assert group[..used + 1][..used] == group[..used];
      if instance.platform.Some? && instance.platform.value == WindowsPlatform && skipWindows {
        used := used + 1;
        continue;
      }
      collected := collected + [instance.instanceId];
      used := used + 1;
      if |collected| == limit {
        return collected, true, used;
      }
    }
  }

  /** `randomTargets` once `DescribeInstances` has answered: each reservation
      is shuffled in place, then its eligible instances are appended one by one
      until the limit is reached. */
  method RandomTargets(described: Result<seq<Reservation>>, limit: int, draws: seq<seq<nat>>, skipWindows: bool)
    returns (instances: Result<seq<string>>)
    ensures instances == SelectTargets(described, limit, draws, skipWindows)
  {
    if described.Err? {
      return Err(described.error);
    }
    var reservations := described.value;
    ghost var groups := Shuffled(reservations, draws);
    var ids: seq<string> := [];
    var k := 0;
    while k < |reservations|
      invariant 0 <= k <= |reservations|
      invariant ids == Candidates(groups[..k], skipWindows)
      invariant limit >= 1 ==> |ids| < limit
    {
      var group := reservations[k].instances;
      var a := new Instance[|group|](i requires 0 <= i < |group| => group[i]);
      assert a[..] == group;
      ShuffleInPlace(a, DrawsFor(draws, k));
      ShuffledAt(reservations, draws, k, a[..]);
      var full, used;
      ids, full, used := CollectGroup(a[..], ids, limit, skipWindows);
      if full {
        CollectedPrefix(groups, k, used, skipWindows);
        return Ok(ids);
      }
      CandidatesStep(groups, k, skipWindows, used);
      k := k + 1;
    }
    assert groups[..k] == groups;
    if |ids| == 0 {
      return Err(NoInstancesFound);
    }
    return Ok(ids);
  }
}
