/** The dashboard view: a click counter, a show/hide switch and a list of
    features whose completion flags can be flipped. */
module DashboardComponent {

  datatype Feature = Feature(id: int, name: string, description: string, completed: bool)

  /** The features the dashboard starts with. */
  const InitialFeatures: seq<Feature> := [
    Feature(1, "Component Creation", "Learn how to create reusable components", true),
    Feature(2, "Property Binding", "Bind component properties to template", true),
    Feature(3, "Event Binding", "Handle user interactions", false),
    Feature(4, "Two-way Binding", "Synchronize data between component and template", false),
    Feature(5, "Pipes", "Transform data display", true)
  ]

  /** The number of completed features, counted from the front of the list.
      The todo view needs the completed items themselves (its filtered view), so
      there the count is the length of a filter; the dashboard only ever shows the
      number, so it is counted directly, which also lets the ranges below follow
      from the recursive calls. */
  function CompletedCount(features: seq<Feature>): (n: nat)
    ensures n <= |features|
    ensures n == 0 <==> forall i :: 0 <= i < |features| ==> !features[i].completed
    ensures n == |features| <==> forall i :: 0 <= i < |features| ==> features[i].completed
  {
    if features == [] then 0
    else (if features[0].completed then 1 else 0) + CompletedCount(features[1..])
  }

  /** Three of the five initial features are completed. */
  lemma InitialCompletedCount()
    ensures CompletedCount(InitialFeatures) == 3
  {
    var f := InitialFeatures;
    assert f[1..][1..][1..][1..][1..] == [];
  }

  /** `features` with the flag of feature `i` flipped. */
  function Flip(features: seq<Feature>, i: nat): (r: seq<Feature>)
    requires i < |features|
    ensures |r| == |features| && r[i].completed == !features[i].completed
    ensures r[i] == features[i].(completed := r[i].completed)
    ensures forall j :: 0 <= j < |features| && j != i ==> r[j] == features[j]
  {
    features[i := features[i].(completed := !features[i].completed)]
  }

  /** Flipping one feature moves the completed count by exactly one. */
  lemma {:induction false} FlipChangesCount(features: seq<Feature>, i: nat)
    requires i < |features|
    ensures CompletedCount(Flip(features, i)) ==
      if features[i].completed then CompletedCount(features) - 1 else CompletedCount(features) + 1
  {
    if i > 0 {
      FlipChangesCount(features[1..], i - 1);
      assert Flip(features, i)[1..] == Flip(features[1..], i - 1);
    } else {
      assert Flip(features, i)[1..] == features[1..];
    }
  }

  /** Flipping the same feature twice restores the list. */
  lemma FlipTwice(features: seq<Feature>, i: nat)
    requires i < |features|
    ensures Flip(Flip(features, i), i) == features
  {
  }

  class DashboardComponent {
    var features: seq<Feature>
    var showAdvancedFeatures: bool
    var clickCount: int

    constructor ()
      ensures features == InitialFeatures && !showAdvancedFeatures && clickCount == 0
    {
      features := InitialFeatures;
      showAdvancedFeatures := false;
      clickCount := 0;
    }

    method OnButtonClick()
      modifies this`clickCount
      ensures clickCount == old(clickCount) + 1
    {
      clickCount := clickCount + 1;
    }

    method OnToggleFeatures()
      modifies this`showAdvancedFeatures
      ensures showAdvancedFeatures == !old(showAdvancedFeatures)
    {
      showAdvancedFeatures := !showAdvancedFeatures;
    }

    /** Flips the completion flag of the feature at position `i` (the feature
        object the template passes). */
    method OnFeatureToggle(i: nat)
      requires i < |features|
      modifies this`features
      ensures features == Flip(old(features), i)
      ensures CompletedFeaturesCount() ==
        if old(features)[i].completed then old(CompletedFeaturesCount()) - 1 else old(CompletedFeaturesCount()) + 1
    {
      FlipChangesCount(features, i);
      features := Flip(features, i);
    }

    /** The number of completed features. */
    function CompletedFeaturesCount(): (n: nat)
      reads this
      ensures n <= |features|
    {
      CompletedCount(features)
    }
  }

  /** Pressing the switch twice restores it; clicks add up. */
  method ToggleTwiceClickTwice(d: DashboardComponent)
    modifies d
    ensures d.showAdvancedFeatures == old(d.showAdvancedFeatures)
    ensures d.clickCount == old(d.clickCount) + 2
    ensures d.features == old(d.features)
  {
    d.OnToggleFeatures();
    d.OnToggleFeatures();
    d.OnButtonClick();
    d.OnButtonClick();
  }
}
