/** Names split into runs that fit a command line (tools/agent_review_loop.py). */
module ArgvBatches {
  import opened Utf8

  const BUDGET := 8000

  /** What a name takes of a command line: its bytes and the terminator. */
  function NameCost(name: string): (cost: nat)
    ensures cost > 0
  {
    |Encode(name)| + 1
  }

  function Cost(names: seq<string>): nat {
    if names == [] then 0 else Cost(names[..|names| - 1]) + NameCost(names[|names| - 1])
  }

  function Flatten(batches: seq<seq<string>>): seq<string> {
    if batches == [] then [] else Flatten(batches[..|batches| - 1]) + batches[|batches| - 1]
  }

  /** A run is within the budget, or a single name. */
  predicate Runs(batch: seq<string>, budget: int) {
    |batch| == 1 || (batch != [] && Cost(batch) <= budget)
  }

  /** A split of the names, in order, into runs. */
  ghost predicate Splits(batches: seq<seq<string>>, names: seq<string>, budget: int) {
    Flatten(batches) == names && forall i :: 0 <= i < |batches| ==> Runs(batches[i], budget)
  }

  /** Each name joins the last run if it fits, and else begins the next. */
  function Greedy(names: seq<string>, budget: int): (batches: seq<seq<string>>)
    ensures names != [] ==> batches != [] && batches[|batches| - 1] != []
  {
    if names == [] then []
    else
      var before, name := Greedy(names[..|names| - 1], budget), names[|names| - 1];
      var last := if before == [] then [] else before[|before| - 1];
      if last == [] || Cost(last) + NameCost(name) > budget then before + [[name]]
      else before[..|before| - 1] + [last + [name]]
  }

  method ArgvBatches(names: seq<string>, budget: int := BUDGET) returns (batches: seq<seq<string>>)
    ensures Splits(batches, names, budget)
    ensures forall other :: Splits(other, names, budget) ==> |batches| <= |other|
  {
    batches := [];
    var current: seq<string>, used := [], 0;
    for i := 0 to |names|
      invariant used == Cost(current)
      invariant Greedy(names[..i], budget) == if i == 0 then [] else batches + [current]
      invariant i == 0 ==> batches == [] && current == []
      invariant i > 0 ==> current != []
    {
      var name := names[i];
      var cost := NameCost(name);
      assert names[..i + 1][..i] == names[..i];
      assert current != [] ==> (batches + [current])[..|batches|] == batches;
      if current != [] && used + cost > budget {
        batches := batches + [current];
        current, used := [], 0;
      }
      CostOfOneMore(current, name);
      current := current + [name];
      used := used + cost;
    }
    assert names[..|names|] == names;
    if current != [] {
      batches := batches + [current];
    }
    GreedySplits(names, budget);
    forall other | Splits(other, names, budget) ensures |batches| <= |other| {
      GreedyIsAhead(names, budget, other);
    }
  }

  lemma CostOfOneMore(names: seq<string>, name: string)
    ensures Cost(names + [name]) == Cost(names) + NameCost(name)
  {
    assert (names + [name])[..|names|] == names;
  }

  lemma FlattenOneMore(batches: seq<seq<string>>, batch: seq<string>)
    ensures Flatten(batches + [batch]) == Flatten(batches) + batch
  {
    assert (batches + [batch])[..|batches|] == batches;
  }

  lemma BeginsRun(batches: seq<seq<string>>, names: seq<string>, name: string, budget: int)
    requires Splits(batches, names, budget)
    ensures Splits(batches + [[name]], names + [name], budget)
  {
    FlattenOneMore(batches, [name]);
  }

  lemma JoinsLastRun(earlier: seq<seq<string>>, last: seq<string>, names: seq<string>, name: string, budget: int)
    requires Splits(earlier + [last], names, budget) && last != [] && Cost(last) + NameCost(name) <= budget
    ensures Splits(earlier + [last + [name]], names + [name], budget)
  {
    FlattenOneMore(earlier, last);
    FlattenOneMore(earlier, last + [name]);
    CostOfOneMore(last, name);
    assert Flatten(earlier) + (last + [name]) == (Flatten(earlier) + last) + [name];
    var (joint, longer) := (earlier + [last], earlier + [last + [name]]);
    forall i | 0 <= i < |longer| ensures Runs(longer[i], budget) {
      assert Runs(joint[i], budget);
    }
  }

  lemma {:induction false} GreedySplits(names: seq<string>, budget: int)
    ensures Splits(Greedy(names, budget), names, budget)
  {
    if names != [] {
      var before, name := names[..|names| - 1], names[|names| - 1];
      GreedySplits(before, budget);
      var batches := Greedy(before, budget);
      assert names == before + [name];
      if batches == [] || Cost(batches[|batches| - 1]) + NameCost(name) > budget {
        BeginsRun(batches, before, name, budget);
      } else {
        assert batches == batches[..|batches| - 1] + [batches[|batches| - 1]];
        JoinsLastRun(batches[..|batches| - 1], batches[|batches| - 1], before, name, budget);
      }
    }
  }

  /** Names at the end of a list cost more the more of them there are. */
  lemma {:induction false} LongerEndsCostMore(names: seq<string>, i: nat, j: nat)
    requires i <= j <= |names|
    ensures Cost(names[j..]) <= Cost(names[i..])
  {
    if i < j < |names| {
      LongerEndsCostMore(names[..|names| - 1], i, j);
      assert names[i..][..|names[i..]| - 1] == names[..|names| - 1][i..];
      assert names[j..][..|names[j..]| - 1] == names[..|names| - 1][j..];
    } else if j == |names| {
      assert names[j..] == [];
    }
  }

  /** A split without its last name. */
  function Shortened(batches: seq<seq<string>>): seq<seq<string>>
    requires batches != [] && batches[|batches| - 1] != []
  {
    var last, earlier := batches[|batches| - 1], batches[..|batches| - 1];
    if |last| == 1 then earlier else earlier + [last[..|last| - 1]]
  }

  lemma ShortenedSplits(batches: seq<seq<string>>, names: seq<string>, budget: int)
    requires Splits(batches, names, budget) && names != []
    ensures batches != [] && batches[|batches| - 1] != []
    ensures Splits(Shortened(batches), names[..|names| - 1], budget)
  {
    var last, earlier := batches[|batches| - 1], batches[..|batches| - 1];
    assert Runs(last, budget);
    if |last| == 1 {
      assert Flatten(earlier) == names[..|names| - 1];
    } else {
      var shorter := last[..|last| - 1];
      FlattenOneMore(earlier, shorter);
      assert names[..|names| - 1] == Flatten(earlier) + shorter;
      assert Runs(shorter, budget);
    }
  }

  /** Of two splits with as many runs, the greedy one's last run is no longer. */
  lemma {:induction false} GreedyIsAhead(names: seq<string>, budget: int, other: seq<seq<string>>)
    requires Splits(other, names, budget)
    ensures |Greedy(names, budget)| <= |other|
    ensures names != [] && |Greedy(names, budget)| == |other| ==>
              |Greedy(names, budget)[|other| - 1]| <= |other[|other| - 1]|
  {
    if names != [] {
      ShortenedSplits(other, names, budget);
      var shorter, before := Shortened(other), names[..|names| - 1];
      GreedyIsAhead(before, budget, shorter);
      if before != [] { AheadWithOneMore(names, budget, other, shorter); }
    }
  }

  lemma AheadWithOneMore(names: seq<string>, budget: int, other: seq<seq<string>>, shorter: seq<seq<string>>)
    requires |names| > 1 && Splits(other, names, budget) && other != [] && other[|other| - 1] != []
    requires shorter == Shortened(other)
    requires var greedy := Greedy(names[..|names| - 1], budget);
             && |greedy| <= |shorter| && Splits(shorter, names[..|names| - 1], budget)
             && (|greedy| == |shorter| ==> |greedy[|greedy| - 1]| <= |shorter[|shorter| - 1]|)
    ensures |Greedy(names, budget)| <= |other|
    ensures |Greedy(names, budget)| == |other| ==> |Greedy(names, budget)[|other| - 1]| <= |other[|other| - 1]|
  {
    var greedy := Greedy(names[..|names| - 1], budget);
    if |greedy| == |shorter| && |other[|other| - 1]| > 1 {
      GreedySplits(names[..|names| - 1], budget);
      NameJoins(names, budget, other, shorter, greedy);
    }
  }

  /** Where another split's last run takes the name in, the greedy one's has room for it as well. */
  lemma NameJoins(names: seq<string>, budget: int, other: seq<seq<string>>, shorter: seq<seq<string>>,
                  greedy: seq<seq<string>>)
    requires |names| > 1 && Splits(other, names, budget) && other != [] && |other[|other| - 1]| > 1
    requires shorter == Shortened(other)
    requires Splits(greedy, names[..|names| - 1], budget) && Splits(shorter, names[..|names| - 1], budget)
    requires |greedy| == |shorter| && |greedy[|greedy| - 1]| <= |shorter[|shorter| - 1]|
    ensures Cost(greedy[|greedy| - 1]) + NameCost(names[|names| - 1]) <= budget
  {
    var mine, last := shorter[|shorter| - 1], other[|other| - 1];
    LastRuns(greedy, shorter, names[..|names| - 1]);
    LastName(other, names);
    assert mine == last[..|last| - 1] && last == mine + [names[|names| - 1]];
    assert Runs(last, budget);
  }

  lemma LastName(batches: seq<seq<string>>, names: seq<string>)
    requires batches != [] && Flatten(batches) == names && batches[|batches| - 1] != []
    ensures names != [] && names[|names| - 1] == batches[|batches| - 1][|batches[|batches| - 1]| - 1]
  {
  }

  lemma LastRuns(a: seq<seq<string>>, b: seq<seq<string>>, names: seq<string>)
    requires a != [] && b != [] && Flatten(a) == names == Flatten(b) && |a[|a| - 1]| <= |b[|b| - 1]|
    ensures Cost(a[|a| - 1]) <= Cost(b[|b| - 1])
  {
    var x, y := a[|a| - 1], b[|b| - 1];
    assert names[|names| - |x|..] == x && names[|names| - |y|..] == y;
    LongerEndsCostMore(names, |names| - |y|, |names| - |x|);
  }
}
