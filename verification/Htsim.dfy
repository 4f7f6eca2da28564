/** Constants of the simulator, and the ECN threshold every queue shares. */
module Htsim {
  const MSS: nat := 1500                    // bytes
  const MIN_RTO: nat := 200_000_000         // 200 microseconds, in picoseconds
  const INIT_RTO: nat := 2_500_000_000      // 2500 microseconds

  function DctcpThreshold(bitrate: nat): nat {
    if bitrate <= 1_000_000_000 then 10 * MSS
    else if bitrate <= 10_000_000_000 then 30 * MSS
    else 90 * MSS
  }

  /** A queue marks beyond 10, 30 or 90 full packets, more at higher bit rates; from 1 Gb/s on a
      queue at its threshold drains within 360 microseconds. */
  lemma MarkingThreshold(bitrate: nat, faster: nat)
    ensures DctcpThreshold(1_000_000_000) == 15_000 && DctcpThreshold(10_000_000_000) == 45_000
    ensures DctcpThreshold(10_000_000_001) == 135_000
    ensures 15_000 <= DctcpThreshold(bitrate) <= 135_000
    ensures bitrate <= faster ==> DctcpThreshold(bitrate) <= DctcpThreshold(faster)
    ensures 1_000_000_000 <= bitrate ==> 8 * DctcpThreshold(bitrate) * 1_000_000 <= 360 * bitrate
    ensures 1_000_000_000 < bitrate ==> DctcpThreshold(bitrate) >= 45_000
  {}
}
