/**
 * Flood-risk tiers and the classification of a water level into a tier
 * (hydroalert-backend/src/utils/statusHelper.js).
 */
module StatusHelper {
  import opened Wrappers

  /** The five tiers, declared from least to most severe. */
  datatype Tier = Normal | Waspada | Siaga1 | Siaga2 | Bahaya

  /** Position of a tier in the severity order Normal < Waspada < Siaga 1 < Siaga 2 < Bahaya. */
  function TierIndex(t: Tier): (i: nat)
    ensures i < 5
  {
    match t
    case Normal => 0
    case Waspada => 1
    case Siaga1 => 2
    case Siaga2 => 3
    case Bahaya => 4
  }

  /** The display name the backend stores in SensorData.status and Notification.severity. */
  function TierName(t: Tier): string {
    match t
    case Normal => "Normal"
    case Waspada => "Waspada"
    case Siaga1 => "Siaga 1"
    case Siaga2 => "Siaga 2"
    case Bahaya => "Bahaya"
  }

  /** The ordered list of display names (predictionService's `orderedStatuses`). */
  const OrderedStatuses: seq<string> := ["Normal", "Waspada", "Siaga 1", "Siaga 2", "Bahaya"]

  function TierAt(i: nat): Tier
    requires i < 5
  {
    if i == 0 then Normal
    else if i == 1 then Waspada
    else if i == 2 then Siaga1
    else if i == 3 then Siaga2
    else Bahaya
  }

  /** Lower bound of each non-Normal tier: the values of STATUS_THRESHOLDS. */
  const WaspadaThreshold: real := 60.0
  const Siaga1Threshold: real := 90.0
  const Siaga2Threshold: real := 120.0
  const BahayaThreshold: real := 180.0

  /** The inclusive lower bound of a tier; Normal starts where nothing else does, so it has none. */
  function Threshold(t: Tier): Option<real> {
    match t
    case Normal => None
    case Waspada => Some(WaspadaThreshold)
    case Siaga1 => Some(Siaga1Threshold)
    case Siaga2 => Some(Siaga2Threshold)
    case Bahaya => Some(BahayaThreshold)
  }

  /** `level` lies in the band of tier `t`: at or above its threshold and below the next tier's. */
  predicate InBand(level: real, t: Tier) {
    (t == Normal || level >= Threshold(t).value) &&
    (t == Bahaya || level < Threshold(TierAt(TierIndex(t) + 1)).value)
  }

  /** getWaterStatus: the checks run from the most severe tier down; the first threshold met wins. */
  function GetWaterStatus(level: real): (t: Tier)
    ensures InBand(level, t)
    ensures level < WaspadaThreshold ==> t == Normal
    ensures t == Bahaya <==> level >= BahayaThreshold
  {
    if level >= BahayaThreshold then Bahaya
    else if level >= Siaga2Threshold then Siaga2
    else if level >= Siaga1Threshold then Siaga1
    else if level >= WaspadaThreshold then Waspada
    else Normal
  }

  /** The display names are pairwise distinct and are exactly the ordered list. */
  lemma TierNamesOrdered(t: Tier)
    ensures OrderedStatuses[TierIndex(t)] == TierName(t)
    ensures TierAt(TierIndex(t)) == t
    ensures forall u: Tier :: TierName(u) == TierName(t) ==> u == t
  {
  }

  /** The thresholds strictly increase with severity. */
  lemma ThresholdsIncreasing(t: Tier, u: Tier)
    requires t != Normal && TierIndex(t) < TierIndex(u)
    ensures Threshold(t).value < Threshold(u).value
  {
  }

  /** The bands do not overlap: a level lies in the band of exactly one tier, the one classified. */
  lemma {:induction false} BandIsUnique(level: real, t: Tier)
    ensures InBand(level, t) <==> t == GetWaterStatus(level)
  {
    match t
    case Normal =>
    case Waspada =>
    case Siaga1 =>
    case Siaga2 =>
    case Bahaya =>
  }

  /** Classification is monotone: a higher level never gives a less severe tier. */
  lemma Monotone(a: real, b: real)
    requires a <= b
    ensures TierIndex(GetWaterStatus(a)) <= TierIndex(GetWaterStatus(b))
  {
  }

  /** Boundaries are inclusive. */
  lemma Boundaries()
    ensures GetWaterStatus(60.0) == Waspada && GetWaterStatus(90.0) == Siaga1
    ensures GetWaterStatus(120.0) == Siaga2 && GetWaterStatus(180.0) == Bahaya
    ensures GetWaterStatus(59.999) == Normal && GetWaterStatus(-1.0) == Normal
  {
  }
}
