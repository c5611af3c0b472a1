/**
 * How the stages fit together: the arena a fresh `GraphBuilder.build` leaves in
 * `all_nodes` meets the assumptions the code generator's lemmas make about
 * their graph.
 */
module Pipeline {
  import opened Syntax
  import opened Categories
  import opened Graph
  import opened DfgSpec
  import opened DfgDepth
  import opened CodeGenerator

  /**
   * On a fresh builder, every operand is an earlier node of the arena, no two
   * nodes share an id and no two identifier nodes share a key: distinct
   * operand nodes then get distinct multiplexer sources.
   */
  lemma FreshBuildFeedsGenerator(v: Variant, tree: Expr)
    ensures var g := Walk(v, tree, 0, Initial([])).state.nodes;
      OperandsBefore(g) && RefsInRange(g) && IdsDistinct(g) && KeysDistinct(g)
  {
    FreshBuildNumbering(v, tree);
    BuildNumbering(v, tree, []);
  }
}
