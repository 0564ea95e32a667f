/** Wires that address argument fragments by block, read by parsers that give every fragment to the
    call opened last (`current_tool_id` in `crates/oag-proto/src/stream.rs`): when the two readings
    part, they never meet again. */
module BlockAddressing {
  import opened Bytes
  import opened Hub

  function Grown(calls: seq<Call>, k: nat, fragment: Text): (r: seq<Call>)
    requires k < |calls|
    ensures |r| == |calls|
  {
    calls[k := calls[k].(args := calls[k].args + fragment)]
  }

  /** The fragment on the call its block holds; one whose block holds no call is lost. */
  function Addressed(calls: seq<Call>, target: Option<nat>, fragment: Text): (r: seq<Call>)
    requires target.Some? ==> target.value < |calls|
    ensures |r| == |calls|
  {
    if target.Some? then Grown(calls, target.value, fragment) else calls
  }

  function Total(calls: seq<Call>): nat {
    if calls == [] then 0 else Total(calls[..|calls| - 1]) + |calls[|calls| - 1].args|
  }

  lemma {:induction false} TotalGrown(calls: seq<Call>, k: nat, fragment: Text)
    requires k < |calls|
    ensures Total(Grown(calls, k, fragment)) == Total(calls) + |fragment|
  {
    var init := calls[..|calls| - 1];
    if k == |calls| - 1 {
      assert Grown(calls, k, fragment)[..k] == init;
    } else {
      TotalGrown(init, k, fragment);
      assert Grown(calls, k, fragment)[..|calls| - 1] == Grown(init, k, fragment);
    }
  }

  /** `x`, where every fragment went to the last call, has parted from `y`, where each went to its
      block's: an earlier call is short of its own fragments, or a fragment of no call is counted. */
  ghost predicate Parted(x: seq<Call>, y: seq<Call>) {
    |x| == |y| && ((exists k :: 0 <= k < |x| - 1 && |x[k].args| < |y[k].args|) || Total(x) > Total(y))
  }

  lemma PartedDiffers(x: seq<Call>, y: seq<Call>)
    requires Parted(x, y)
    ensures x != y
  {
  }

  lemma Parting(x: seq<Call>, target: Option<nat>, fragment: Text)
    requires x != [] && fragment != [] && (target.Some? ==> target.value < |x| - 1)
    ensures Parted(Grown(x, |x| - 1, fragment), Addressed(x, target, fragment))
  {
    if target.Some? {
      var x', y' := Grown(x, |x| - 1, fragment), Grown(x, target.value, fragment);
      assert |x'[target.value].args| < |y'[target.value].args|;
    } else {
      TotalGrown(x, |x| - 1, fragment);
    }
  }

  lemma StayParted(x: seq<Call>, y: seq<Call>, target: Option<nat>, fragment: Text)
    requires Parted(x, y) && x != [] && (target.Some? ==> target.value < |y|)
    ensures Parted(Grown(x, |x| - 1, fragment), Addressed(y, target, fragment))
  {
    var x', y' := Grown(x, |x| - 1, fragment), Addressed(y, target, fragment);
    TotalGrown(x, |x| - 1, fragment);
    if target.Some? {
      TotalGrown(y, target.value, fragment);
    }
    if k :| 0 <= k < |x| - 1 && |x[k].args| < |y[k].args| {
      assert |x'[k].args| < |y'[k].args|;
    }
  }

  lemma OpenParted(x: seq<Call>, y: seq<Call>, call: Call)
    requires Parted(x, y)
    ensures Parted(x + [call], y + [call])
  {
    assert (x + [call])[..|x|] == x && (y + [call])[..|y|] == y;
    if k :| 0 <= k < |x| - 1 && |x[k].args| < |y[k].args| {
      assert |(x + [call])[k].args| < |(y + [call])[k].args|;
    }
  }

  /** The two readings: the same calls while every fragment was in place, parted for good after. */
  ghost predicate Alike(x: seq<Call>, y: seq<Call>, inPlace: bool) {
    && Ids(x) == Ids(y) && Distinct(Ids(x))
    && if inPlace then x == y else Parted(x, y)
  }

  lemma AlikeExactlyWhen(x: seq<Call>, y: seq<Call>, inPlace: bool)
    requires Alike(x, y, inPlace)
    ensures x == y <==> inPlace
  {
    if !inPlace {
      PartedDiffers(x, y);
    }
  }

  predicate InPlace(calls: seq<Call>, target: Option<nat>, fragment: Text) {
    fragment == [] || target == Some(|calls| - 1)
  }

  lemma AlikeOpening(x: seq<Call>, y: seq<Call>, inPlace: bool, id: Text, name: Text)
    requires Alike(x, y, inPlace) && id !in Ids(x)
    ensures Alike(x + [Call(id, name, [])], y + [Call(id, name, [])], inPlace)
  {
    var call := Call(id, name, []);
    assert Ids(x + [call]) == Ids(x) + [id] && Ids(y + [call]) == Ids(y) + [id];
    if !inPlace {
      OpenParted(x, y, call);
    }
  }

  lemma AddressedIds(calls: seq<Call>, target: Option<nat>, fragment: Text)
    requires target.Some? ==> target.value < |calls|
    ensures Ids(Addressed(calls, target, fragment)) == Ids(calls)
  {
  }

  lemma NothingAdded(calls: seq<Call>, target: Option<nat>)
    requires target.Some? ==> target.value < |calls|
    ensures Addressed(calls, target, []) == calls
  {
    if target.Some? {
      assert calls[target.value].args + [] == calls[target.value].args;
    }
  }

  lemma AlikeFragment(x: seq<Call>, y: seq<Call>, inPlace: bool, target: Option<nat>, fragment: Text)
    requires Alike(x, y, inPlace) && x != [] && (target.Some? ==> target.value < |y|)
    ensures var x', y' := AddFragment(x, LastId(x), fragment), Addressed(y, target, fragment);
            Alike(x', y', inPlace && InPlace(y, target, fragment))
  {
    PositionUnique(Ids(x), |x| - 1);
    assert AddFragment(x, LastId(x), fragment) == Grown(x, |x| - 1, fragment);
    AddressedIds(x, Some(|x| - 1), fragment);
    AddressedIds(y, target, fragment);
    if !inPlace {
      StayParted(x, y, target, fragment);
    } else if fragment == [] {
      NothingAdded(x, Some(|x| - 1));
      NothingAdded(y, target);
    } else if target != Some(|y| - 1) {
      Parting(x, target, fragment);
    }
  }
}
