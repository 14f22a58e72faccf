/** The part of a National Weather Service alert feature that the components read. */
module NwsFeed {

  /** `feature.properties`: the fields the alert cards and the map styling use. */
  datatype Properties = Properties(
    event: string,
    areaDesc: string,
    expires: string,
    description: string,
    senderName: string)

  /** One GeoJSON feature of the alerts response: its stable id and its properties. */
  datatype Feature = Feature(id: string, properties: Properties)
}
