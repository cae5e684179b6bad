/**
 * One position observation of the presence tracker, as the tracking
 * pipeline builds it from an LD2450 frame and as the observation stage and
 * the fusion clusterer pass it on.
 */
module Measurement {
  import opened Common
  import opened Js

  /**
   * measTs is the frame's measurement time, radarId the radar's number,
   * zoneId its zone ("" when none), xMm/yMm the world position, prov the
   * provenance object (or null) and sourceRadars the radars a fused
   * observation came from (absent on unfused ones).
   */
  datatype Obs = Obs(measTs: real, radarId: real, zoneId: string, xMm: real, yMm: real,
                     prov: Value, sourceRadars: Option<seq<real>>)
}
