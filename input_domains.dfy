/**
 * Rebuilding the input panel's domains: the considerations of the checked
 * behaviours are grouped by the axis they read (skipping those without an axis
 * or without a knowledge-base record), each contributes its clamped view to its
 * axis's list, and each list is folded with `Union` starting from null.
 */
module InputDomains {
  import opened Wrappers
  import opened Entities

  /** A consideration takes part in grouping when it has an axis and that axis
      has a knowledge-base record. */
  predicate Contributes(c: Consideration)
  {
    c.input.Some? && c.input.value.kbRec.Some?
  }

  /** All considerations of `bs`, behaviour by behaviour, in order. */
  function ConsiderationsOf(bs: seq<Behavior>): seq<Consideration>
  {
    if bs == [] then [] else ConsiderationsOf(bs[..|bs| - 1]) + bs[|bs| - 1].considerations
  }

  /** The contributing considerations of `cs` that read axis `a`, in order. */
  function On(cs: seq<Consideration>, a: InputAxis): seq<Consideration>
  {
    if cs == [] then []
    else
      var c := cs[|cs| - 1];
      On(cs[..|cs| - 1], a) + if Contributes(c) && c.input == Some(a) then [c] else []
  }

  /** The view of axis `a` clamped by each of `cs`, one view per consideration. */
  function Clamped(a: InputAxis, cs: seq<Consideration>, clamp: (InputAxis, seq<ParameterValue>) -> InputAxis): seq<InputAxis>
  {
    seq(|cs|, i requires 0 <= i < |cs| => clamp(a, cs[i].parameterValues))
  }

  /** `views` folded from the left with `union`, starting from null. */
  function FoldUnion(views: seq<InputAxis>, union: (InputAxis, Option<InputAxis>) -> Option<InputAxis>): Option<InputAxis>
  {
    if views == [] then None else union(views[|views| - 1], FoldUnion(views[..|views| - 1], union))
  }

  /** The domain the panel needs for axis `a` when `cs` are the considerations of the checked behaviours. */
  function AxisDomain(cs: seq<Consideration>, a: InputAxis, ext: Collaborators): Option<InputAxis>
  {
    FoldUnion(Clamped(a, On(cs, a), ext.clamp), ext.union)
  }

  /** `controls` is a rebuilt input panel for `cs`: one control per axis whose
      domain is not null, tagged with that axis, built for that domain, in no
      particular order. */
  ghost predicate PanelFor(cs: seq<Consideration>, ext: Collaborators, controls: seq<InputControl>)
  {
    && (forall k :: 0 <= k < |controls| ==>
          && AxisDomain(cs, controls[k].tag, ext) == Some(controls[k].domain)
          && controls[k].reading == ext.initialReading(controls[k].domain))
    && (forall a :: AxisDomain(cs, a, ext).Some? ==> exists k :: 0 <= k < |controls| && controls[k].tag == a)
    && (forall k, l :: 0 <= k < l < |controls| ==> controls[k].tag != controls[l].tag)
  }

  lemma OnSnoc(cs: seq<Consideration>, c: Consideration)
    ensures forall a :: On(cs + [c], a) == On(cs, a) + if Contributes(c) && c.input == Some(a) then [c] else []
  {
  }

  lemma ClampedSnoc(a: InputAxis, cs: seq<Consideration>, c: Consideration,
                    clamp: (InputAxis, seq<ParameterValue>) -> InputAxis)
    ensures Clamped(a, cs + [c], clamp) == Clamped(a, cs, clamp) + [clamp(a, c.parameterValues)]
  {
  }

  lemma ConsiderationsOfSnoc(bs: seq<Behavior>, b: Behavior)
    ensures ConsiderationsOf(bs + [b]) == ConsiderationsOf(bs) + b.considerations
  {
  }

  /** Exactly the contributing considerations on axis `a` are grouped under `a`. */
  lemma {:induction false} OnMembers(cs: seq<Consideration>, a: InputAxis, c: Consideration)
    ensures c in On(cs, a) <==> c in cs && Contributes(c) && c.input == Some(a)
  {
    if cs != [] {
      var init := cs[..|cs| - 1];
      OnMembers(init, a, c);
      assert cs == init + [cs[|cs| - 1]];
    }
  }

  /** The considerations taken into account are exactly those of the given behaviours. */
  lemma {:induction false} ConsiderationsOfMembers(bs: seq<Behavior>, c: Consideration)
    ensures c in ConsiderationsOf(bs) <==> exists i :: 0 <= i < |bs| && c in bs[i].considerations
  {
    if bs != [] {
      var init := bs[..|bs| - 1];
      ConsiderationsOfMembers(init, c);
      if c in bs[|bs| - 1].considerations {
        assert c in ConsiderationsOf(bs);
      }
    }
  }

  /** An axis gets a domain only when some contributing consideration reads it. */
  lemma DomainNeedsContributor(cs: seq<Consideration>, a: InputAxis, ext: Collaborators)
    requires AxisDomain(cs, a, ext).Some?
    ensures exists c :: c in cs && Contributes(c) && c.input == Some(a)
  {
    var on := On(cs, a);
    assert on != [];
    OnMembers(cs, a, on[0]);
  }

  /**
   * Fills the axis-to-views dictionary: every contributing consideration of
   * `bs` appends its clamped view to the list of the axis it reads.
   */
  method GroupByAxis(bs: seq<Behavior>, clamp: (InputAxis, seq<ParameterValue>) -> InputAxis)
    returns (inputs: map<InputAxis, seq<InputAxis>>)
    ensures forall a :: a in inputs <==> On(ConsiderationsOf(bs), a) != []
    ensures forall a :: a in inputs ==> inputs[a] == Clamped(a, On(ConsiderationsOf(bs), a), clamp)
  {
    inputs := map[];
    for i := 0 to |bs|
      invariant forall a :: a in inputs <==> On(ConsiderationsOf(bs[..i]), a) != []
      invariant forall a :: a in inputs ==> inputs[a] == Clamped(a, On(ConsiderationsOf(bs[..i]), a), clamp)
    {
      ghost var done := ConsiderationsOf(bs[..i]);
      var considerations := bs[i].considerations;
      assert done + considerations[..0] == done;
      for j := 0 to |considerations|
        invariant forall a :: a in inputs <==> On(done + considerations[..j], a) != []
        invariant forall a :: a in inputs ==> inputs[a] == Clamped(a, On(done + considerations[..j], a), clamp)
      {
        var c := considerations[j];
        assert done + considerations[..j + 1] == (done + considerations[..j]) + [c];
        OnSnoc(done + considerations[..j], c);
        forall a | Contributes(c) && c.input == Some(a)
          ensures Clamped(a, On(done + considerations[..j], a) + [c], clamp)
                  == Clamped(a, On(done + considerations[..j], a), clamp) + [clamp(a, c.parameterValues)]
        {
          ClampedSnoc(a, On(done + considerations[..j], a), c, clamp);
        }
        if c.input == None || c.input.value.kbRec == None {
          continue;
        }
        var axis := c.input.value;
        if axis !in inputs {
          inputs := inputs[axis := []];
        }
        var clamped := clamp(axis, c.parameterValues);
        inputs := inputs[axis := inputs[axis] + [clamped]];
      }
      assert considerations[..|considerations|] == considerations;
      assert bs[..i + 1] == bs[..i] + [bs[i]];
      ConsiderationsOfSnoc(bs[..i], bs[i]);
    }
    assert bs[..|bs|] == bs;
  }

  /** Folds one axis's views with `Union`, starting from null. */
  method UnionAll(views: seq<InputAxis>, union: (InputAxis, Option<InputAxis>) -> Option<InputAxis>)
    returns (u: Option<InputAxis>)
    ensures u == FoldUnion(views, union)
  {
    u := None;
    for i := 0 to |views|
      invariant u == FoldUnion(views[..i], union)
    {
      assert views[..i + 1][..i] == views[..i];
      u := union(views[i], u);
    }
    assert views[..|views|] == views;
  }

  /**
   * Builds the input panel from the axis-to-views dictionary, visiting the
   * axes in no particular order: one control per axis whose folded union is
   * not null, tagged with that axis.
   */
  method BuildPanel(inputs: map<InputAxis, seq<InputAxis>>, ext: Collaborators) returns (controls: seq<InputControl>)
    ensures forall k :: 0 <= k < |controls| ==>
      && controls[k].tag in inputs
      && FoldUnion(inputs[controls[k].tag], ext.union) == Some(controls[k].domain)
      && controls[k].reading == ext.initialReading(controls[k].domain)
    ensures forall a :: a in inputs && FoldUnion(inputs[a], ext.union).Some? ==>
      exists k :: 0 <= k < |controls| && controls[k].tag == a
    ensures forall k, l :: 0 <= k < l < |controls| ==> controls[k].tag != controls[l].tag
  {
    controls := [];
    var pending := inputs.Keys;
    ghost var visited: set<InputAxis> := {};
    while pending != {}
      invariant pending !! visited && pending + visited == inputs.Keys
      invariant forall k :: 0 <= k < |controls| ==>
        && controls[k].tag in visited
        && FoldUnion(inputs[controls[k].tag], ext.union) == Some(controls[k].domain)
        && controls[k].reading == ext.initialReading(controls[k].domain)
      invariant forall a :: a in visited && FoldUnion(inputs[a], ext.union).Some? ==>
        exists k :: 0 <= k < |controls| && controls[k].tag == a
      invariant forall k, l :: 0 <= k < l < |controls| ==> controls[k].tag != controls[l].tag
      decreases pending
    {
      var axis :| axis in pending;
      var union := UnionAll(inputs[axis], ext.union);
      ghost var before := controls;
      if union.Some? {
        controls := controls + [InputControl(axis, union.value, ext.initialReading(union.value))];
        assert controls[|before|].tag == axis;
      }
      forall a | a in visited && FoldUnion(inputs[a], ext.union).Some?
        ensures exists k :: 0 <= k < |controls| && controls[k].tag == a
      {
        var k :| 0 <= k < |before| && before[k].tag == a;
        assert controls[k] == before[k];
      }
      pending := pending - {axis};
      visited := visited + {axis};
    }
  }
}
