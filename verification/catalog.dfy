/** The fixed exoplanet catalogue every search, ranking and view reads. */
module Catalog {

  /** A planet's disposition. The catalogue spells it in capitals ("CONFIRMED"),
      an analysis verdict in lower case ("confirmed"). */
  datatype Disposition = Confirmed | Candidate | FalsePositive {

    /** The catalogue's spelling, compared against the classification filter. */
    function CatalogLabel(): string {
      match this
      case Confirmed => "CONFIRMED"
      case Candidate => "CANDIDATE"
      case FalsePositive => "FALSE_POSITIVE"
    }

    /** The spelling of an analysis verdict. */
    function VerdictLabel(): string {
      match this
      case Confirmed => "confirmed"
      case Candidate => "candidate"
      case FalsePositive => "false-positive"
    }
  }

  /** One catalogue record; distances in light years, radius in Earth radii,
      period in days, temperature in kelvin, depth in parts per million,
      habitability on a 0..10 scale. */
  datatype Planet = Planet(
    id: string,
    name: string,
    classification: Disposition,
    discoveryDate: string,
    distanceLy: real,
    radiusEarth: real,
    orbitalPeriodDays: real,
    stellarTempK: real,
    transitDepthPpm: real,
    habitabilityScore: real,
    similarityMatch: real,
    discoveryMission: string)

  const Kepler452b := Planet("KEP-452b", "Kepler-452b", Confirmed, "2015-07-23",
                             1402.0, 1.6, 385.0, 5757.0, 115.0, 8.2, 0.94, "Kepler")
  const Trappist1e := Planet("TRAPPIST-1e", "TRAPPIST-1e", Confirmed, "2016-05-02",
                             40.0, 0.92, 6.1, 2559.0, 89.0, 9.1, 0.87, "TRAPPIST")
  const Toi715b := Planet("TOI-715b", "TOI-715 b", Candidate, "2024-01-31",
                          137.0, 1.55, 19.3, 3600.0, 203.0, 6.9, 0.79, "TESS")
  const K218b := Planet("K2-18b", "K2-18 b", Confirmed, "2015-12-15",
                        124.0, 2.3, 33.0, 3457.0, 156.0, 8.7, 0.83, "K2")
  const Lhs1140b := Planet("LHS-1140b", "LHS 1140 b", Confirmed, "2017-04-19",
                           40.7, 1.4, 24.7, 3216.0, 178.0, 7.8, 0.91, "K2")

  /** The catalogue shipped with the application, in its stable order. */
  const Sample: seq<Planet> := [Kepler452b, Trappist1e, Toi715b, K218b, Lhs1140b]
}
