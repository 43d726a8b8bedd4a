/** Coordinates and the distance between them, left abstract. */
module Geo {

  /** A latitude/longitude pair in degrees. */
  datatype Coords = Coords(latitude: real, longitude: real)

  /**
   * The great-circle distance in metres between two points. The haversine
   * formula itself is not modelled: every operation that needs a distance
   * takes one of these as a parameter and assumes nothing about it.
   */
  type Distance = (Coords, Coords) -> real
}
