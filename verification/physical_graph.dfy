/** The drop specs of a physical graph, reduced to the keys the CWL
    translator and the graph assembler read. A key missing from a drop's
    JSON object reads as the default the source asks for with
    `node.get(key, default)`: the empty string for `dt` and `command`, the
    empty list for `inputs` and `outputs`; `nm` and `app`, which the
    translator also reads with `node[key]`, are optional. */
module PhysicalGraph {
  import opened Common

  datatype Drop = Drop(
    oid: string,
    dt: string,
    nm: Option<string>,
    app: Option<string>,
    command: string,
    inputs: seq<string>,
    outputs: seq<string>)

  /** A physical graph in its list-of-drops form (the `pg_spec`). */
  type Graph = seq<Drop>
}
