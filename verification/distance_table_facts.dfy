/** Facts about the concrete Navi Mumbai table and the lookup's answers on it. */
module DistanceTableFacts {
  import opened Optional
  import opened Text
  import opened DistanceCalculator

  /** 11 bases, each with 13 targets. */
  lemma TableShape()
    ensures |NaviMumbaiDistances| == 11
    ensures forall i :: 0 <= i < 11 ==> |NaviMumbaiDistances[i].1| == 13
  {
  }

  /** Every stored distance lies in [0.0, 29.7]; both ends are attained, by
      belapur -> cbd belapur and airoli -> taloja. */
  lemma TableValuesInRange()
    ensures forall i, j :: 0 <= i < |NaviMumbaiDistances| && 0 <= j < |NaviMumbaiDistances[i].1| ==>
              0.0 <= NaviMumbaiDistances[i].1[j].1 <= 29.7
    ensures NaviMumbaiDistances[2].0 == "belapur" && NaviMumbaiDistances[2].1[10] == ("cbd belapur", 0.0)
    ensures NaviMumbaiDistances[5].0 == "airoli" && NaviMumbaiDistances[5].1[12] == ("taloja", 29.7)
  {
  }

  /** No base lists itself among its targets. */
  lemma NoSelfTarget()
    ensures forall i, j :: 0 <= i < |NaviMumbaiDistances| && 0 <= j < |NaviMumbaiDistances[i].1| ==>
              NaviMumbaiDistances[i].1[j].0 != NaviMumbaiDistances[i].0
  {
  }

  /** A found distance is one the table stores, so it lies in [0.0, 29.7]. */
  lemma NaviMumbaiDistanceInRange(origin: string, destination: string)
    ensures NaviMumbaiDistance(origin, destination).Some? ==>
              0.0 <= NaviMumbaiDistance(origin, destination).value <= 29.7
  {
    NaviMumbaiDistanceAtFirstHit(origin, destination);
    TableValuesInRange();
  }

  /** Lower-casing the place names the examples below use. */
  lemma LowerCasedExamples()
    ensures ToLower("Vashi") == "vashi" && ToLower("Nerul") == "nerul"
    ensures ToLower("Nerul Station") == "nerul station" && ToLower("Vashi Creek") == "vashi creek"
    ensures ToLower("Belapur") == "belapur" && ToLower("CBD Belapur") == "cbd belapur"
  {
  }

  lemma ResolveVashiNerul()
    ensures Resolve(NaviMumbaiDistances, "vashi", "nerul") == Some(Hit(0, 0, false))
  {
    var t := NaviMumbaiDistances;
    assert t[0].0 == "vashi" && t[0].1[0].0 == "nerul";
    ContainsSelf("vashi");
    ContainsSelf("nerul");
  }

  /** ("Vashi", "Nerul") -> 5.2, by the forward check on base vashi. */
  lemma VashiToNerul()
    ensures NaviMumbaiDistance("Vashi", "Nerul") == Some(5.2)
  {
    LowerCasedExamples();
    ResolveVashiNerul();
  }

  lemma ResolveNerulStationVashiCreek()
    ensures Resolve(NaviMumbaiDistances, "nerul station", "vashi creek") == Some(Hit(0, 0, true))
  {
    var t := NaviMumbaiDistances;
    assert t[0].0 == "vashi" && t[0].1[0].0 == "nerul";
    AbsentCharNotContained("nerul station", "vashi", 0);
    assert OccursAt("vashi creek", "vashi", 0);
    assert OccursAt("nerul station", "nerul", 0);
  }

  /** ("Nerul Station", "Vashi Creek") -> 5.2: the origin does not hold
      "vashi", so the forward check fails, and the reverse check on base
      vashi finds "nerul" in the origin. */
  lemma NerulStationToVashiCreek()
    ensures NaviMumbaiDistance("Nerul Station", "Vashi Creek") == Some(5.2)
  {
    LowerCasedExamples();
    ResolveNerulStationVashiCreek();
  }
  /** In base belapur's map the first target held by "cbd belapur" is
      "cbd belapur" itself, at index 10. */
  lemma CbdBelapurFirstInBelapurMap()
    ensures FindTarget(NaviMumbaiDistances[2].1, "cbd belapur") == Some(10)
  {
    var m := NaviMumbaiDistances[2].1;
    var s := "cbd belapur";
    ContainsSelf(s);
    assert m[10].0 == "cbd belapur";
    assert FindTargetFrom(m, s, 10) == Some(10);
    assert m[9].0 == "seawoods"; AbsentCharNotContained(s, "seawoods", 0);
    assert FindTargetFrom(m, s, 9) == Some(10);
    assert m[8].0 == "juinagar"; AbsentCharNotContained(s, "juinagar", 0);
    assert FindTargetFrom(m, s, 8) == Some(10);
    assert m[7].0 == "sanpada"; AbsentCharNotContained(s, "sanpada", 0);
    assert FindTargetFrom(m, s, 7) == Some(10);
    assert m[6].0 == "kopar khairane"; AbsentCharNotContained(s, "kopar khairane", 0);
    assert FindTargetFrom(m, s, 6) == Some(10);
    assert m[5].0 == "ghansoli"; AbsentCharNotContained(s, "ghansoli", 0);
    assert FindTargetFrom(m, s, 5) == Some(10);
    assert m[4].0 == "airoli"; AbsentCharNotContained(s, "airoli", 1);
    assert FindTargetFrom(m, s, 4) == Some(10);
    assert m[3].0 == "panvel"; AbsentCharNotContained(s, "panvel", 2);
    assert FindTargetFrom(m, s, 3) == Some(10);
    assert m[2].0 == "kharghar"; AbsentCharNotContained(s, "kharghar", 0);
    assert FindTargetFrom(m, s, 2) == Some(10);
    assert m[1].0 == "nerul"; AbsentCharNotContained(s, "nerul", 0);
    assert FindTargetFrom(m, s, 1) == Some(10);
    assert m[0].0 == "vashi"; AbsentCharNotContained(s, "vashi", 0);
    assert FindTargetFrom(m, s, 0) == Some(10);
  }

  lemma ResolveBelapurCbdBelapur()
    ensures Resolve(NaviMumbaiDistances, "belapur", "cbd belapur") == Some(Hit(2, 10, false))
  {
    var t := NaviMumbaiDistances;
    var s := "cbd belapur";
    assert t[0].0 == "vashi" && t[1].0 == "nerul" && t[2].0 == "belapur";
    AbsentCharNotContained("belapur", "vashi", 0);
    AbsentCharNotContained(s, "vashi", 0);
    AbsentCharNotContained("belapur", "nerul", 0);
    AbsentCharNotContained(s, "nerul", 0);
    ContainsSelf("belapur");
    CbdBelapurFirstInBelapurMap();
    assert ResolveFrom(t, "belapur", s, 2) == Some(Hit(2, 10, false));
    assert ResolveFrom(t, "belapur", s, 1) == Some(Hit(2, 10, false));
  }


  /** ("Belapur", "CBD Belapur") -> 0.0: a hit whose distance is zero. */
  lemma BelapurToCbdBelapur()
    ensures NaviMumbaiDistance("Belapur", "CBD Belapur") == Some(0.0)
  {
    LowerCasedExamples();
    ResolveBelapurCbdBelapur();
  }


  // ------------------------------------------- a base name given twice

  /** The fourteen place names the table uses as keys: the eleven bases in
      table order, then the three places that occur only as targets. */
  const Places: seq<string> := [
    "vashi", "nerul", "belapur", "kharghar", "panvel",
    "airoli", "ghansoli", "kopar khairane", "sanpada", "juinagar",
    "seawoods", "cbd belapur", "khanda colony", "taloja"]

  /** The bases are the first eleven places, and every target is a place. */
  lemma KeysArePlaces()
    ensures forall i :: 0 <= i < |NaviMumbaiDistances| ==> NaviMumbaiDistances[i].0 == Places[i]
    ensures forall i, j :: 0 <= i < |NaviMumbaiDistances| && 0 <= j < |NaviMumbaiDistances[i].1| ==>
              NaviMumbaiDistances[i].1[j].0 in Places
  {
  }

  /** Row `a` gives, for each place `b`, a character of place `b`'s name
      that base `a`'s name lacks; '-' stands at the base itself. */
  const Witnesses: seq<string> := [
    "-nbkprgknjeckt",
    "v-bkpagksjsckt",
    "vn-knigksjsckt",
    "vnb-pinosjscnt",
    "srbk-igksjsckt",
    "vnbkp-gksjsckt",
    "vebkpr-kpjeckt",
    "vubgvlg-sjscdt",
    "vebkvigk-jeckt",
    "vebkpohks-sckt",
    "vnbkpigknj-ckt"]

  /** `s` holds no place name but its own. */
  ghost predicate HoldsNoOtherPlace(s: string) {
    forall b :: 0 <= b < |Places| && Places[b] != s ==> !Contains(s, Places[b])
  }

  // One lemma per base: the witness row rules out every other place. They
  // are separate so that each base's character checks are a proof of their own.

  lemma VashiHoldsNoOtherPlace()
    ensures HoldsNoOtherPlace(Places[0])
  {
    HoldsNoneOf(Places[0], Places, Witnesses[0]);
  }

  lemma NerulHoldsNoOtherPlace()
    ensures HoldsNoOtherPlace(Places[1])
  {
    HoldsNoneOf(Places[1], Places, Witnesses[1]);
  }

  lemma BelapurHoldsNoOtherPlace()
    ensures HoldsNoOtherPlace(Places[2])
  {
    HoldsNoneOf(Places[2], Places, Witnesses[2]);
  }

  lemma KhargharHoldsNoOtherPlace()
    ensures HoldsNoOtherPlace(Places[3])
  {
    HoldsNoneOf(Places[3], Places, Witnesses[3]);
  }

  lemma PanvelHoldsNoOtherPlace()
    ensures HoldsNoOtherPlace(Places[4])
  {
    HoldsNoneOf(Places[4], Places, Witnesses[4]);
  }

  lemma AiroliHoldsNoOtherPlace()
    ensures HoldsNoOtherPlace(Places[5])
  {
    HoldsNoneOf(Places[5], Places, Witnesses[5]);
  }

  lemma GhansoliHoldsNoOtherPlace()
    ensures HoldsNoOtherPlace(Places[6])
  {
    HoldsNoneOf(Places[6], Places, Witnesses[6]);
  }

  lemma KoparKhairaneHoldsNoOtherPlace()
    ensures HoldsNoOtherPlace(Places[7])
  {
    HoldsNoneOf(Places[7], Places, Witnesses[7]);
  }

  lemma SanpadaHoldsNoOtherPlace()
    ensures HoldsNoOtherPlace(Places[8])
  {
    HoldsNoneOf(Places[8], Places, Witnesses[8]);
  }

  lemma JuinagarHoldsNoOtherPlace()
    ensures HoldsNoOtherPlace(Places[9])
  {
    HoldsNoneOf(Places[9], Places, Witnesses[9]);
  }

  lemma SeawoodsHoldsNoOtherPlace()
    ensures HoldsNoOtherPlace(Places[10])
  {
    HoldsNoneOf(Places[10], Places, Witnesses[10]);
  }

  /** No base name holds another place name. */
  lemma BaseHoldsNoOtherPlace(a: nat)
    requires a < |NaviMumbaiDistances|
    ensures HoldsNoOtherPlace(Places[a])
  {
    if a == 0 {
      VashiHoldsNoOtherPlace();
    } else if a == 1 {
      NerulHoldsNoOtherPlace();
    } else if a == 2 {
      BelapurHoldsNoOtherPlace();
    } else if a == 3 {
      KhargharHoldsNoOtherPlace();
    } else if a == 4 {
      PanvelHoldsNoOtherPlace();
    } else if a == 5 {
      AiroliHoldsNoOtherPlace();
    } else if a == 6 {
      GhansoliHoldsNoOtherPlace();
    } else if a == 7 {
      KoparKhairaneHoldsNoOtherPlace();
    } else if a == 8 {
      SanpadaHoldsNoOtherPlace();
    } else if a == 9 {
      JuinagarHoldsNoOtherPlace();
    } else {
      SeawoodsHoldsNoOtherPlace();
    }
  }

  /** A base's own name given as both origin and destination matches
      nothing: the name holds no other base, and none of its own targets,
      since no base lists itself. */
  lemma SameBaseNameMisses(i: nat)
    requires i < |NaviMumbaiDistances|
    ensures Resolve(NaviMumbaiDistances, NaviMumbaiDistances[i].0, NaviMumbaiDistances[i].0) == None
  {
    var t := NaviMumbaiDistances;
    var s := t[i].0;
    KeysArePlaces();
    NoSelfTarget();
    BaseHoldsNoOtherPlace(i);
    forall k | 0 <= k < |t|
      ensures !BaseHit(t[k], s, s)
    {
      if k == i {
        forall j | 0 <= j < |t[i].1|
          ensures !Contains(s, t[i].1[j].0)
        {
          var b :| 0 <= b < |Places| && Places[b] == t[i].1[j].0;
        }
      }
    }
    ResolveSpec(t, s, s);
  }

  /** ("Vashi", "Vashi") -> None. */
  lemma VashiToVashi()
    ensures NaviMumbaiDistance("Vashi", "Vashi") == None
  {
    LowerCasedExamples();
    assert ToLower("Vashi") == NaviMumbaiDistances[0].0;
    SameBaseNameMisses(0);
  }

  // ------------------------------------------- the shadowed cbd belapur entries

  /** Outside base belapur's map, "belapur" comes before "cbd belapur", so
      the "cbd belapur" entry can never be the first target found. */
  lemma CbdBelapurShadowed(i: nat, s: string)
    requires i < |NaviMumbaiDistances| && i != 2
    ensures FindTarget(NaviMumbaiDistances[i].1, s) != Some(10)
  {
    assert OccursAt("cbd belapur", "belapur", 4);
    var m := NaviMumbaiDistances[i].1;
    var b := if i < 2 then 1 else 2;
    assert m[b].0 == "belapur" && m[10].0 == "cbd belapur";
    ShadowedTargetNeverFound(m, s, b, 10);
  }

  /** So a lookup can land on a "cbd belapur" entry only in belapur's own map. */
  lemma CbdBelapurOnlyFromBelapur(origin: string, destination: string)
    ensures var r := Resolve(NaviMumbaiDistances, origin, destination);
              r.Some? && r.value.target == 10 ==> r.value.base == 2
  {
    var t := NaviMumbaiDistances;
    var r := Resolve(t, origin, destination);
    if r.Some? && r.value.target == 10 && r.value.base != 2 {
      var h := r.value;
      ResolveSpec(t, origin, destination);
      var x := if h.reversed then origin else destination;
      FindTargetSpec(t[h.base].1, x);
      FirstTargetUnique(t[h.base].1, x, FindTarget(t[h.base].1, x).value, 10);
      CbdBelapurShadowed(h.base, x);
      assert false;
    }
  }
}
