/**
 * The planner's constant tables: the six trip themes, the candidate-scoring weights, the
 * eco-score weights, the Earth radius used by the haversine formula and the car-transport
 * emission factor.
 */
module Config {

  /** The carbon label a theme advertises, and the label `get_carbon_level` assigns to a figure. */
  datatype CarbonLevel = Low | Medium | High

  /**
   * One entry of `THEMES`. The display fields (Thai name, subtitle, icon, description) are
   * presentation text and are not part of the model.
   */
  datatype Theme = Theme(id: string, name: string, keywords: seq<string>, carbonLevel: CarbonLevel)

  const EarthRadiusKm: real := 6371.0

  /** kg of CO2 per km travelled by car. */
  const TransportCarbonPerKm: real := 0.12

  // Category keywords of the dataset (Thai): viewpoint, waterfall, cave, tea plantation,
  // handicraft, local souvenir, community souvenir, farm.
  const Viewpoint: string := "จุดชมวิว"
  const Waterfall: string := "น้ำตก"
  const Cave: string := "ถ้ำ"
  const TeaPlantation: string := "สวนชา"
  const Handicraft: string := "งานหัตถกรรม"
  const LocalSouvenir: string := "ของที่ระลึกท้องถิ่น"
  const CommunitySouvenir: string := "ของฝากชุมชน"
  const Farm: string := "ฟาร์ม"

  const Themes: seq<Theme> := [
    Theme("naturalist", "Naturalist", [Viewpoint, Waterfall, Cave, TeaPlantation], Low),
    Theme("conservative", "Conservative", [Handicraft, LocalSouvenir, CommunitySouvenir], Low),
    Theme("photogenic", "Photogenic", [Viewpoint, TeaPlantation, Farm], Low),
    Theme("cafeist", "Cafe'ist", [TeaPlantation, Farm], Low),
    Theme("mood", "Based on My Mood", [], Medium),
    Theme("weather", "Based on Weather", [], Medium)
  ]

  /** `SCORING_WEIGHTS`: one weight per scored feature. */
  datatype ScoringWeights = ScoringWeights(tourismScore: real, rating: real, carbon: real, popularity: real, distance: real)

  const Scoring: ScoringWeights := ScoringWeights(0.30, 0.20, 0.25, 0.15, 0.10)

  /** `ECO_SCORE_WEIGHTS`: the maximum points each component contributes to the 0-10 eco score. */
  datatype EcoScoreWeights = EcoScoreWeights(carbon: real, tourism: real, rating: real, efficiency: real)

  const EcoWeights: EcoScoreWeights := EcoScoreWeights(4.0, 3.0, 2.0, 1.0)

  /** The scoring weights are non-negative and sum to 1, so a weighted sum of [0,1] features stays in [0,1]. */
  lemma ScoringWeightsSumToOne()
    ensures Scoring.tourismScore + Scoring.rating + Scoring.carbon + Scoring.popularity + Scoring.distance == 1.0
    ensures Scoring.tourismScore >= 0.0 && Scoring.rating >= 0.0 && Scoring.carbon >= 0.0
    ensures Scoring.popularity >= 0.0 && Scoring.distance >= 0.0
  {
  }

  /** The eco-score weights are non-negative and sum to 10, the top of the eco scale. */
  lemma EcoWeightsSumToTen()
    ensures EcoWeights.carbon + EcoWeights.tourism + EcoWeights.rating + EcoWeights.efficiency == 10.0
    ensures EcoWeights.carbon >= 0.0 && EcoWeights.tourism >= 0.0 && EcoWeights.rating >= 0.0 && EcoWeights.efficiency >= 0.0
  {
  }

  /** There are six themes, each with a non-empty id, and no two of them share an id, so a lookup by id is unambiguous. */
  lemma ThemeIdsDistinct()
    ensures |Themes| == 6
    ensures forall k :: 0 <= k < |Themes| ==> Themes[k].id != ""
    ensures forall a, b :: 0 <= a < b < |Themes| ==> Themes[a].id != Themes[b].id
  {
    forall k | 0 <= k < |Themes| ensures Themes[k].id != "" {
      assert |Themes[k].id| >= 2;
    }
    forall a, b | 0 <= a < b < |Themes| ensures Themes[a].id != Themes[b].id {
      assert Themes[a].id[0] != Themes[b].id[0] || Themes[a].id[1] != Themes[b].id[1];
    }
  }

  /** Only the "mood" and "weather" themes declare no keywords, so only they skip the category filter. */
  lemma KeywordlessThemes()
    ensures forall k :: 0 <= k < |Themes| ==> (Themes[k].keywords == [] <==> Themes[k].id in {"mood", "weather"})
  {
    assert Themes[4].id == "mood" && Themes[5].id == "weather";
    forall k | 0 <= k < 4 ensures Themes[k].id !in {"mood", "weather"} {
      assert Themes[k].id[0] != 'm' && Themes[k].id[0] != 'w';
    }
  }
}
