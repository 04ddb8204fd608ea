/** The Kubernetes values the operator reads and writes, cut down to the fields it uses. */
module Kube {
  import opened Wrappers

  datatype EnvVar = EnvVar(name: string, value: string)

  datatype Container = Container(name: string, image: string, pullPolicy: string, env: seq<EnvVar>)

  datatype Operator = In | NotIn | Exists | DoesNotExist

  datatype Requirement = Requirement(key: string, operator: Operator, values: seq<string>)

  datatype Term = Term(expressions: seq<Requirement>)

  /** Only the part of node affinity the operator inspects; the rest is kept as text. */
  datatype NodeAffinity = NodeAffinity(required: Option<seq<Term>>, preferred: string)

  datatype Affinity = Affinity(node: Option<NodeAffinity>, pod: Option<string>, antiPod: Option<string>)

  datatype Node = Node(name: string, labels: map<string, string>)

  datatype Pod = Pod(
    name: string,
    labels: map<string, string>,
    initContainers: seq<Container>,
    containers: seq<Container>,
    affinity: Option<Affinity>)
}
