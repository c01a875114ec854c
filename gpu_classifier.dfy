/**
 * `classify_gpu_logic` of src/Classify_gpu.py: a priority-ordered keyword
 * classifier over the upper-cased product title. The first keyword list with
 * a member occurring in the title decides the label: water cooling, then
 * air-cooled flagship, then game-enhanced, then basic.
 */
module GpuClassifier {
  import opened Wrappers
  import opened Text

  const WaterCooled: string := "Water Cooled Flagship"
  const AirCooled: string := "Air Cooled Flagship"
  const GameEnhanced: string := "Game-enhanced"
  const BasicModel: string := "Basic"
  const Uncategorized: string := "Uncategorized"

  /** The five labels a title can receive. */
  const Labels: set<string> := {WaterCooled, AirCooled, GameEnhanced, BasicModel, Uncategorized}

  const WaterCoolingKeywords: seq<string> :=
    ["LIQUID", "AIO", "ARCTICSTORM", "WATER", "AORUS AI BOX", "WATERFORCE"]
  const FlagshipAirKeywords: seq<string> :=
    ["SUPRIM", "ROG ASTRAL", "AMP EXTREME", "AORUS X", "AORUS ST", "AORUS MASTER", "AORUS ELITE", "XTREME"]
  const GameEnhancedKeywords: seq<string> :=
    ["GAMING TRIO", "TUF GAMING", "VANGUARD", "AORUS M", "GAMING OC", "AORUS", "GAMING"]
  const BasicModelKeywords: seq<string> := ["VENTUS", "WINDFORCE", "SOLID"]

  /** `any(keyword in title for keyword in keywords)`. */
  predicate AnyIn(title: string, keywords: seq<string>) {
    exists k | k in keywords :: Contains(title, k)
  }

  /** Gigabyte's own water-cooled model suffixes. */
  predicate GigabyteWater(title: string) {
    Contains(title, "GIGABYTE")
    && (Contains(title, " W-") || Contains(title, " WB-") || Contains(title, "WATERFORCE"))
  }

  predicate IsWaterCooled(title: string) {
    GigabyteWater(title) || AnyIn(title, WaterCoolingKeywords)
  }

  /** The decision list, applied to an upper-cased title. */
  function ClassifyUpper(title: string): (category: string)
    ensures category in Labels
  {
    if IsWaterCooled(title) then WaterCooled
    else if AnyIn(title, FlagshipAirKeywords) then AirCooled
    else if AnyIn(title, GameEnhancedKeywords) then GameEnhanced
    else if AnyIn(title, BasicModelKeywords) then BasicModel
    else Uncategorized
  }

  /** `classify_gpu_logic(title)`; None stands for a missing (non-string) title. */
  function ClassifyGpuLogic(title: Option<string>): (category: string)
    ensures category in Labels
    ensures title.None? ==> category == Uncategorized
  {
    match title
    case None => Uncategorized
    case Some(t) => ClassifyUpper(Upper(t))
  }

  // ---------------------------------------------------------------------
  // Properties
  // ---------------------------------------------------------------------

  /** Only the upper-cased title is inspected, so case does not matter. */
  lemma ClassifyCaseInsensitive(t: string)
    ensures ClassifyGpuLogic(Some(Upper(t))) == ClassifyGpuLogic(Some(t))
  {
    UpperIdempotent(t);
  }

  /** Water cooling has the highest priority: the title is water-cooled exactly when a
      water keyword occurs, or GIGABYTE occurs with one of its water suffixes. */
  lemma WaterCooledIff(t: string)
    ensures ClassifyGpuLogic(Some(t)) == WaterCooled <==> IsWaterCooled(Upper(t))
  {
  }

  /** A keyword contains each of its infixes. */
  lemma InfixContained(a: string, m: string, b: string)
    ensures Contains(a + m + b, m)
  {
    assert OccursAt(a + m + b, m, |a|);
  }

  /** Since "WATER" is itself a water keyword, the "WATERFORCE" tests add nothing: the water
      decision reduces to GIGABYTE with " W-" or " WB-", or one of five keywords. */
  lemma WaterDecisionReduced(u: string)
    ensures IsWaterCooled(u) <==>
      (Contains(u, "GIGABYTE") && (Contains(u, " W-") || Contains(u, " WB-")))
      || AnyIn(u, ["LIQUID", "AIO", "ARCTICSTORM", "WATER", "AORUS AI BOX"])
  {
    if Contains(u, "WATERFORCE") {
      InfixContained("", "WATER", "FORCE");
      assert "" + "WATER" + "FORCE" == "WATERFORCE";
      ContainsTransitive(u, "WATERFORCE", "WATER");
    }
  }

  /** " W-" or " WB-" without GIGABYTE does not make a title water-cooled. */
  lemma SuffixAloneIsNotWater(t: string)
    requires !Contains(Upper(t), "GIGABYTE") && !AnyIn(Upper(t), WaterCoolingKeywords)
    ensures ClassifyGpuLogic(Some(t)) != WaterCooled
  {
  }

  /** Air-flagship keywords are tested before gaming ones: a title naming an AORUS MASTER
      also contains the game-enhanced keyword AORUS, yet it is an air-cooled flagship unless
      it is water-cooled. */
  lemma AorusMasterIsAirFlagship(t: string)
    requires Contains(Upper(t), "AORUS MASTER")
    ensures AnyIn(Upper(t), GameEnhancedKeywords)
    ensures ClassifyGpuLogic(Some(t)) == if IsWaterCooled(Upper(t)) then WaterCooled else AirCooled
  {
    var u := Upper(t);
    InfixContained("", "AORUS", " MASTER");
    assert "" + "AORUS" + " MASTER" == "AORUS MASTER";
    ContainsTransitive(u, "AORUS MASTER", "AORUS");
    assert "AORUS" in GameEnhancedKeywords;
    assert "AORUS MASTER" in FlagshipAirKeywords;
  }

  /** The longer game-enhanced keywords are subsumed by the shorter ones: the list behaves
      like AORUS, GAMING and VANGUARD alone. */
  lemma GameEnhancedReduced(u: string)
    ensures AnyIn(u, GameEnhancedKeywords) <==>
      Contains(u, "AORUS") || Contains(u, "GAMING") || Contains(u, "VANGUARD")
  {
    if AnyIn(u, GameEnhancedKeywords) {
      var k :| k in GameEnhancedKeywords && Contains(u, k);
      if k == "GAMING TRIO" {
        InfixContained("", "GAMING", " TRIO");
        assert "" + "GAMING" + " TRIO" == k;
        ContainsTransitive(u, k, "GAMING");
      } else if k == "TUF GAMING" {
        InfixContained("TUF ", "GAMING", "");
        assert "TUF " + "GAMING" + "" == k;
        ContainsTransitive(u, k, "GAMING");
      } else if k == "AORUS M" {
        InfixContained("", "AORUS", " M");
        assert "" + "AORUS" + " M" == k;
        ContainsTransitive(u, k, "AORUS");
      } else if k == "GAMING OC" {
        InfixContained("", "GAMING", " OC");
        assert "" + "GAMING" + " OC" == k;
        ContainsTransitive(u, k, "GAMING");
      }
    }
    if Contains(u, "AORUS") {
      assert "AORUS" in GameEnhancedKeywords;
    }
    if Contains(u, "GAMING") {
      assert "GAMING" in GameEnhancedKeywords;
    }
    if Contains(u, "VANGUARD") {
      assert "VANGUARD" in GameEnhancedKeywords;
    }
  }

  /** "Basic" is given exactly when no water, air-flagship or gaming keyword occurs and a
      basic-model keyword does. */
  lemma BasicIff(t: string)
    ensures ClassifyGpuLogic(Some(t)) == BasicModel <==>
      var u := Upper(t);
      !IsWaterCooled(u) && !AnyIn(u, FlagshipAirKeywords) && !AnyIn(u, GameEnhancedKeywords)
      && AnyIn(u, BasicModelKeywords)
  {
  }

  /** A title is uncategorized exactly when it is missing or no keyword test succeeds. */
  lemma UncategorizedIff(title: Option<string>)
    ensures ClassifyGpuLogic(title) == Uncategorized <==>
      title.None? ||
      var u := Upper(title.value);
      !IsWaterCooled(u) && !AnyIn(u, FlagshipAirKeywords) && !AnyIn(u, GameEnhancedKeywords)
      && !AnyIn(u, BasicModelKeywords)
  {
  }
}
