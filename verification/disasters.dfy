/** The static disaster catalogue (data/disasters.js), without its icons. */
module Disasters {
  import opened Wrappers
  import JsNumbers

  /** A response the player may pick: a population change for one named species. */
  datatype DisasterAction = DisasterAction(labelText: string, target: string, deltaPopulation: Option<int>)

  datatype Disaster = Disaster(title: string, description: string, impact: string, actions: seq<DisasterAction>)

  /** One catalogue property: the disaster's key and its record. */
  datatype Entry = Entry(key: string, disaster: Disaster)

  /** The catalogue in `Object.keys` order. */
  const Catalogue: seq<Entry> := [
    Entry("wildfire", Disaster(
      "Wildfire",
      "Extreme heat and prolonged drought ignited a wildfire.",
      "Forest loss, wildlife displacement, and reduced air quality.",
      [DisasterAction("Replant Trees", "Grass", Some(200)),
       DisasterAction("Protect Nesting Zones", "Hawk", Some(10))])),
    Entry("landslide", Disaster(
      "Landslide",
      "Heavy rainfall destabilized hillside terrain.",
      "Severe soil erosion and blocked waterways.",
      [DisasterAction("Stabilize Slopes", "Rabbit", Some(30)),
       DisasterAction("Save Cliff Fox Nests", "Fox", Some(25))])),
    Entry("flood", Disaster(
      "Flood",
      "Overflowing rivers flooded the ecosystem.",
      "Plant loss and water contamination.",
      [DisasterAction("Build Safe Burrows", "Rabbit", Some(45)),
       DisasterAction("Divert Flooding", "Grass", Some(-180))])),
    Entry("drought", Disaster(
      "Drought",
      "Extended lack of rainfall stressed the biome.",
      "Crop failure and wildlife decline.",
      [DisasterAction("Conserve Water", "Fox", Some(20)),
       DisasterAction("Protect Watering Holes", "Rabbit", Some(25))])),
    Entry("invasive", Disaster(
      "Invasive Species",
      "A non-native species spread rapidly.",
      "Native species populations declined.",
      [DisasterAction("Remove Invaders", "Grass", Some(-40)),
       DisasterAction("Allow Spread", "Hawk", Some(5))]))
  ]

  /** The species names the catalogue's actions may target. */
  const KnownTargets: set<string> := {"Grass", "Rabbit", "Fox", "Hawk"}

  /** `Object.keys(disasters)`. */
  function Keys(): (keys: seq<string>)
    ensures |keys| == |Catalogue|
    ensures forall i :: 0 <= i < |keys| ==> keys[i] == Catalogue[i].key
  {
    seq(|Catalogue|, i requires 0 <= i < |Catalogue| => Catalogue[i].key)
  }

  /** The shape every catalogue entry has. */
  lemma CatalogueShape()
    ensures Keys() == ["wildfire", "landslide", "flood", "drought", "invasive"]
    ensures forall i :: 0 <= i < |Catalogue| ==> |Catalogue[i].disaster.actions| == 2
    ensures forall i, j :: 0 <= i < |Catalogue| && 0 <= j < |Catalogue[i].disaster.actions| ==>
      Catalogue[i].disaster.actions[j].deltaPopulation.Some?
      && Catalogue[i].disaster.actions[j].target in KnownTargets
  {
  }

  /** `keys[Math.floor(draw * keys.length)]` for a draw of `Math.random()`. */
  function PickIndex(draw: real): (i: nat)
    requires 0.0 <= draw < 1.0
    ensures i < |Catalogue|
    ensures i as real <= draw * |Catalogue| as real < i as real + 1.0
  {
    JsNumbers.FloorDiv(draw * |Catalogue| as real, 1.0)
  }

  /** The draws the tests force select wildfire, flood and drought. */
  lemma PickExamples()
    ensures Catalogue[PickIndex(0.0)].key == "wildfire"
    ensures Catalogue[PickIndex(0.5)].key == "flood"
    ensures Catalogue[PickIndex(0.7)].key == "drought"
    ensures Catalogue[PickIndex(0.5)].disaster.actions ==
      [DisasterAction("Build Safe Burrows", "Rabbit", Some(45)), DisasterAction("Divert Flooding", "Grass", Some(-180))]
  {
    assert PickIndex(0.5) == 2;
    assert PickIndex(0.7) == 3;
  }
}
