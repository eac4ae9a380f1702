/** The values of RoutingConstants.java that the modelled code reads. */
module RoutingConstants {

  /** GRAPH_RELATIONSHIP_PAGINATION_AMOUNT: relationships per page. */
  const GraphRelationshipPaginationAmount: int := 5000

  /** GRAPH_PROPERTY_NAME_ASSOCIATED_DATA: the reserved key of the ledger. */
  const GraphPropertyNameAssociatedData: string := "associatedData"

  /** GRAPH_PROPERTY_NAME_OSM_ID: the key relationships are ordered by when paged. */
  const GraphPropertyNameOsmId: string := "osm_id"
}
