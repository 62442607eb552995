/** Conversion from the ultrasonic sensor's distance reading to a water level
 *  (hydroalert-backend/src/utils/waterLevel.js). */
module WaterLevel {

  /** Distance, in cm, from the sensor down to the river bed. */
  const RiverDepthFromSensor: real := 435.0

  /** The water level is the part of the depth the measured distance does not cover; nothing is clamped. */
  function GetWaterLevel(distance: real): (level: real)
    ensures level + distance == RiverDepthFromSensor
  {
    RiverDepthFromSensor - distance
  }

  /** Converting twice gives the reading back. */
  lemma Involution(x: real)
    ensures GetWaterLevel(GetWaterLevel(x)) == x
  {
  }

  /** A larger distance means a lower level. */
  lemma StrictlyDecreasing(x: real, y: real)
    requires x < y
    ensures GetWaterLevel(x) > GetWaterLevel(y)
  {
  }

  /** The end points, and no clamping past the river bed. */
  lemma EndPoints(x: real)
    ensures GetWaterLevel(435.0) == 0.0 && GetWaterLevel(0.0) == 435.0
    ensures x > 435.0 ==> GetWaterLevel(x) < 0.0
  {
  }
}
