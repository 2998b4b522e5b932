/** The values the world layer hands to the renderer: block states and
    light. */
module WorldTypes {
  import opened BlockIds

  /** A block state of the modern format: air, the marker for an id the
      catalogue does not know, or a namespaced id with its properties. */
  datatype BlockState = Air | Missing | State(id: string, properties: map<Property, string>)

  /** Sky light and block light at one position. */
  datatype LightData = LightData(sky: int, block: int)
}
