/** Selector parsing shared by both variants: `targets` turns each
    `key=v1,v2,...` selector into an SSM target, and `toFilter` turns SSM
    targets into EC2 `DescribeInstances` filters. The two copies of this code
    (lib/Command.go and lib/command.go) are identical. */
module Selectors {
  import opened Outcomes
  import opened Text

  /** `ssm.Target`: a key and the values accepted for it. */
  datatype Target = Target(key: string, values: seq<string>)

  /** `ec2.Filter`: an attribute name and the values accepted for it. */
  datatype Filter = Filter(name: string, values: seq<string>)

  function MalformedSelector(selector: string): string
  {
    "unable to derive target from: " + selector
  }

  /** One selector: the key is everything before the first `=`, the values are
      the rest split on `,`. A value may itself contain `=`. */
  function ParseSelector(selector: string): (r: Result<Target>)
    ensures r.Err? <==> '=' !in selector
    ensures r.Err? ==> r.error == MalformedSelector(selector)
    ensures r.Ok? ==> '=' !in r.value.key && selector == r.value.key + "=" + Join(r.value.values, ",")
    ensures r.Ok? ==> |r.value.values| >= 1 && forall v :: v in r.value.values ==> ',' !in v
  {
    var s := SplitFirst(selector, '=');
    if |s| != 2 then Err(MalformedSelector(selector))
    else Ok(Target(s[0], Split(s[1], ',')))
  }

  /** What `targets` computes for a list of selectors, read from the last
      selector backwards: the first malformed selector wins. */
  function ParseTargets(selectors: seq<string>): Result<seq<Target>>
  {
    if |selectors| == 0 then Ok([])
    else match ParseTargets(selectors[..|selectors| - 1])
      case Err(e) => Err(e)
      case Ok(ts) =>
        match ParseSelector(selectors[|selectors| - 1])
        case Err(e) => Err(e)
        case Ok(t) => Ok(ts + [t])
  }

  /** Parsing succeeds exactly when every selector has an `=`, and then yields
      one target per selector, in order. */
  lemma {:induction false} ParseTargetsOk(selectors: seq<string>)
    ensures ParseTargets(selectors).Ok? <==> forall i :: 0 <= i < |selectors| ==> '=' in selectors[i]
    ensures ParseTargets(selectors).Ok? ==>
      var ts := ParseTargets(selectors).value;
      |ts| == |selectors| && forall i :: 0 <= i < |selectors| ==> ParseSelector(selectors[i]) == Ok(ts[i])
  {
    if |selectors| > 0 {
      var n := |selectors| - 1;
      var init := selectors[..n];
      ParseTargetsOk(init);
      var last := ParseSelector(selectors[n]);
      if ParseTargets(init).Ok? && last.Ok? {
        var ts := ParseTargets(init).value;
        var all := ts + [last.value];
        assert ParseTargets(selectors) == Ok(all);
        forall i | 0 <= i < |selectors|
          ensures ParseSelector(selectors[i]) == Ok(all[i])
        {
          if i < n {
            assert init[i] == selectors[i];
          }
        }
      } else if ParseTargets(init).Err? {
        var i :| 0 <= i < n && '=' !in init[i];
        assert selectors[i] == init[i];
      }
    }
  }

  /** A failure names the first selector without `=`. */
  lemma {:induction false} ParseTargetsErr(selectors: seq<string>)
    requires ParseTargets(selectors).Err?
    ensures exists i :: 0 <= i < |selectors| && '=' !in selectors[i] &&
              (forall j :: 0 <= j < i ==> '=' in selectors[j]) &&
              ParseTargets(selectors).error == MalformedSelector(selectors[i])
  {
    var init := selectors[..|selectors| - 1];
    assert forall i :: 0 <= i < |init| ==> init[i] == selectors[i];
    if ParseTargets(init).Err? {
      ParseTargetsErr(init);
    } else {
      ParseTargetsOk(init);
      var i := |selectors| - 1;
      assert '=' !in selectors[i];
    }
  }

  /** `targets`: parses the selectors in order and stops at the first one
      without `=`. */
  method Targets(selectors: seq<string>) returns (targets: Result<seq<Target>>)
    ensures targets == ParseTargets(selectors)
  {
    var parsed: seq<Target> := [];
    var i := 0;
    while i < |selectors|
      invariant 0 <= i <= |selectors|
      invariant ParseTargets(selectors[..i]) == Ok(parsed)
    {
      var s := SplitFirst(selectors[i], '=');
      assert selectors[..i + 1][..i] == selectors[..i];
      if |s| != 2 {
        ErrPersists(selectors, i + 1);
        return Err(MalformedSelector(selectors[i]));
      }
      parsed := parsed + [Target(s[0], Split(s[1], ','))];
      i := i + 1;
    }
    assert selectors[..i] == selectors;
    return Ok(parsed);
  }

  /** Once a prefix of the selectors fails to parse, the whole list fails with
      the same error. */
  lemma {:induction false} ErrPersists(selectors: seq<string>, n: nat)
    requires n <= |selectors| && ParseTargets(selectors[..n]).Err?
    ensures ParseTargets(selectors) == ParseTargets(selectors[..n])
    decreases |selectors| - n
  {
    if n < |selectors| {
      assert selectors[..n + 1][..n] == selectors[..n];
      ErrPersists(selectors, n + 1);
    } else {
      assert selectors[..n] == selectors;
    }
  }

  function FilterOf(t: Target): Filter
  {
    Filter(t.key, t.values)
  }

  /** `toFilter`: one EC2 filter per target, in order, the key as filter name
      and the same values. */
  method ToFilter(targets: seq<Target>) returns (filters: seq<Filter>)
    ensures |filters| == |targets|
    ensures forall i :: 0 <= i < |targets| ==> filters[i].name == targets[i].key && filters[i].values == targets[i].values
  {
    filters := [];
    for i := 0 to |targets|
      invariant |filters| == i
      invariant forall k :: 0 <= k < i ==> filters[k] == FilterOf(targets[k])
    {
      filters := filters + [FilterOf(targets[i])];
    }
  }

  /** The filters `toFilter` produces, as a value. */
  function Filters(targets: seq<Target>): seq<Filter>
  {
    seq(|targets|, i requires 0 <= i < |targets| => FilterOf(targets[i]))
  }
}
