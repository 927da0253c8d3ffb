/** The `nodes` table: its rows, its foreign keys and slug indexes, and what a delete does to the rows that stay. */
module NodeTable {
  import opened Wrappers
  import opened NodeWalks

  type TenantId = nat

  datatype Kind = Country | State | City

  // The metadata keys that some modelled branch reads.
  datatype NodeMetadata = NodeMetadata(kind: Option<Kind>, proposal: Option<string>)

  datatype Row = Row(
    parent: Option<NodeId>, tenant: Option<TenantId>, slug: string, name: string, metadata: NodeMetadata)

  type Nodes = map<NodeId, Row>

  predicate NodeRefsExist(nodes: Nodes, tenants: set<TenantId>) {
    forall n | n in nodes ::
      && (nodes[n].parent.Some? ==> nodes[n].parent.value in nodes)
      && (nodes[n].tenant.Some? ==> nodes[n].tenant.value in tenants)
  }

  // Both partial indexes at once: no two rows share parent and slug, the roots counting as one family.
  predicate SlugsUnique(nodes: Nodes) {
    forall m, n | m in nodes && n in nodes && m != n ::
      !(nodes[m].parent == nodes[n].parent && nodes[m].slug == nodes[n].slug)
  }

  // ON DELETE SET NULL for the children that stay.
  function Without(nodes: Nodes, gone: set<NodeId>): Nodes {
    map n | n in nodes && n !in gone ::
      if nodes[n].parent.Some? && nodes[n].parent.value in gone then nodes[n].(parent := None) else nodes[n]
  }

  function NodesOf(nodes: Nodes, tenant: TenantId): set<NodeId> {
    set n | n in nodes && nodes[n].tenant == Some(tenant)
  }
}
