/** The two helpers of lib/utilities.go: `toString`, which renders a command's
    parameter map one indented value per line, and `randomSeconds`, the
    randomised sleep between polls. */
module Utilities {
  import opened Text

  /** One line of `toString`'s output. */
  function ValueLine(value: string): string
  {
    "  " + value + "\n"
  }

  /** The lines for a list of values, in list order. */
  function Rendered(values: seq<string>): string
  {
    if |values| == 0 then ""
    else Rendered(values[..|values| - 1]) + ValueLine(values[|values| - 1])
  }

  /** The values of the keys in `order`, key after key, each key's values in
      slice order. */
  function AllValues(p: map<string, seq<string>>, order: seq<string>): seq<string>
    requires forall k :: k in order ==> k in p
  {
    if |order| == 0 then []
    else AllValues(p, order[..|order| - 1]) + p[order[|order| - 1]]
  }

  /** `order` lists every key of the map exactly once. Go leaves the order in
      which `range` visits a map's keys unspecified. */
  predicate Enumerates(order: seq<string>, keys: set<string>)
  {
    && (forall i, j :: 0 <= i < j < |order| ==> order[i] != order[j])
    && (forall k :: k in order ==> k in keys)
    && (forall k :: k in keys ==> k in order)
  }

  /** `toString`: every value of every key on its own line, indented by two
      spaces. The keys are visited in some order; `order` records it. */
  method ToString(p: map<string, seq<string>>) returns (s: string, ghost order: seq<string>)
    ensures Enumerates(order, p.Keys)
    ensures s == Rendered(AllValues(p, order))
    ensures s == "" <==> forall k :: k in p ==> |p[k]| == 0
  {
    s, order := "", [];
    var rest := p.Keys;
    while rest != {}
      invariant rest <= p.Keys
      invariant forall i, j :: 0 <= i < j < |order| ==> order[i] != order[j]
      invariant forall k :: k in order <==> k in p.Keys && k !in rest
      invariant s == Rendered(AllValues(p, order))
      decreases |rest|
    {
      var key :| key in rest;
      var values := p[key];
      var j := 0;
      assert AllValues(p, order) + values[..0] == AllValues(p, order);
      while j < |values|
        invariant 0 <= j <= |values|
        invariant s == Rendered(AllValues(p, order) + values[..j])
      {
        assert (AllValues(p, order) + values[..j + 1])[..|AllValues(p, order)| + j] == AllValues(p, order) + values[..j];
        s := s + ValueLine(values[j]);
        j := j + 1;
      }
      assert values[..j] == values;
      assert (order + [key])[..|order|] == order;
      order := order + [key];
      rest := rest - {key};
    }
    ToStringEmpty(p, order);
  }

  lemma {:induction false} AllValuesEmpty(p: map<string, seq<string>>, order: seq<string>)
    requires forall k :: k in order ==> k in p
    ensures |AllValues(p, order)| == 0 <==> forall k :: k in order ==> |p[k]| == 0
  {
    if |order| > 0 {
      var n := |order| - 1;
      assert forall k :: k in order[..n] ==> k in order;
      AllValuesEmpty(p, order[..n]);
      assert forall k :: k in order ==> k in order[..n] || k == order[n];
    }
  }

  /** `toString` returns "" exactly when every value slice is empty, in
      particular for an empty map, whatever the key order. */
  lemma ToStringEmpty(p: map<string, seq<string>>, order: seq<string>)
    requires Enumerates(order, p.Keys)
    ensures Rendered(AllValues(p, order)) == "" <==> forall k :: k in p ==> |p[k]| == 0
  {
    AllValuesEmpty(p, order);
    var values := AllValues(p, order);
    if |values| > 0 {
      assert |Rendered(values)| >= |ValueLine(values[|values| - 1])| > 0;
    }
  }

  /** A value behind its two-space indent. */
  function Indented(values: seq<string>): seq<string>
  {
    seq(|values|, i requires 0 <= i < |values| => "  " + values[i])
  }

  lemma {:induction false} JoinAppend(a: seq<string>, b: seq<string>, sep: string)
    requires |a| >= 1 && |b| >= 1
    ensures Join(a + b, sep) == Join(a, sep) + sep + Join(b, sep)
    decreases |a|
  {
    if |a| == 1 {
      assert (a + b)[1..] == b;
    } else {
      assert (a + b)[1..] == a[1..] + b;
      JoinAppend(a[1..], b, sep);
    }
  }

  /** The output is the indented values joined by newlines, plus a final
      newline. */
  lemma {:induction false} RenderedIsJoin(values: seq<string>)
    ensures Rendered(values) == Join(Indented(values) + [""], "\n")
    decreases |values|
  {
    if |values| > 0 {
      var n := |values| - 1;
      var init := values[..n];
      RenderedIsJoin(init);
      var lines := Indented(values);
      assert lines == Indented(init) + ["  " + values[n]];
      JoinAppend(lines, [""], "\n");
      if n > 0 {
        JoinAppend(Indented(init), [""], "\n");
        JoinAppend(Indented(init), ["  " + values[n]], "\n");
      }
    }
  }

  /** When no value holds a newline, splitting the output at newlines gives
      exactly one line per value, in order, each behind its indent, and an
      empty remainder after the last newline. */
  lemma OneLinePerValue(values: seq<string>)
    requires forall v :: v in values ==> '\n' !in v
    ensures Split(Rendered(values), '\n') == Indented(values) + [""]
  {
    RenderedIsJoin(values);
    var lines := Indented(values) + [""];
    forall l | l in lines
      ensures '\n' !in l
    {
      var i :| 0 <= i < |lines| && lines[i] == l;
      if i < |values| {
        assert values[i] in values;
      }
    }
    SplitJoin(lines, '\n');
  }

  /** Nanoseconds in a second: `time.Second`. */
  const Second := 1_000_000_000

  /** `randomSeconds(i)`: `rand.Intn(i)` whole seconds, with the random
      number drawn by `rand` given as `draw` and brought into [0, i). */
  function RandomSeconds(i: int, draw: nat): (d: int)
    requires i > 0
    ensures 0 <= d < i * Second && d % Second == 0
    ensures draw < i ==> d == draw * Second
  {
    (draw % i) * Second
  }
}
