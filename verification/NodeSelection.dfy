/** The check that a network's node affinity leaves a node to run on, held against what the
    affinity means to the Kubernetes scheduler. */
module NodeSelection {
  import opened Wrappers
  import opened Kube

  const HOSTNAME := "kubernetes.io/hostname"

  // ---------------------------------------------------------------- The operator's check

  function RequiredTerms(affinity: Option<Affinity>): Option<seq<Term>> {
    if affinity.None? || affinity.value.node.None? then None else affinity.value.node.value.required
  }

  predicate ExcludedBy(req: Requirement, name: string) {
    req.key == HOSTNAME && req.operator == NotIn && name in req.values
  }

  predicate ExcludedByTerm(term: Term, name: string) {
    exists req :: req in term.expressions && ExcludedBy(req, name)
  }

  predicate Excluded(terms: seq<Term>, name: string) {
    exists term :: term in terms && ExcludedByTerm(term, name)
  }

  /** There is a node, and if terms are required some node is in none of their lists. */
  predicate LeavesANode(nodes: seq<Node>, terms: Option<seq<Term>>) {
    nodes != [] && (terms.Some? ==> exists node :: node in nodes && !Excluded(terms.value, node.name))
  }

  method ValidateMinimumNodes(nodes: seq<Node>, affinity: Option<Affinity>) returns (accepted: bool)
    ensures accepted <==> LeavesANode(nodes, RequiredTerms(affinity))
    ensures affinity.None? || affinity.value.node.None? || affinity.value.node.value.required.None? ==>
              (accepted <==> nodes != [])
    ensures affinity.Some? && affinity.value.node.Some? && affinity.value.node.value.required.Some? ==>
              (accepted <==> exists node :: (node in nodes
                && forall term, req :: term in affinity.value.node.value.required.value && req in term.expressions ==>
                     !(req.key == "kubernetes.io/hostname" && req.operator == NotIn && node.name in req.values)))
  {
    if |nodes| == 0 {
      return false;
    }
    var terms := RequiredTerms(affinity);
    if terms.Some? {
      var availableNodes := 0;
      for n := 0 to |nodes|
        invariant availableNodes >= 0
        invariant availableNodes == 0 <==> forall i :: 0 <= i < n ==> Excluded(terms.value, nodes[i].name)
      {
        var nodeMatches := false;
        for t := 0 to |terms.value|
          invariant !nodeMatches
          invariant forall i :: 0 <= i < t ==> !ExcludedByTerm(terms.value[i], nodes[n].name)
        {
          nodeMatches := SearchTerm(terms.value[t], nodes[n].name);
          if nodeMatches {
            assert terms.value[t] in terms.value;
            break;
          }
        }
        if !nodeMatches {
          availableNodes := availableNodes + 1;
        }
      }
      if availableNodes == 0 {
        return false;
      }
    }
    accepted := true;
  }

  method SearchTerm(term: Term, name: string) returns (nodeMatches: bool)
    ensures nodeMatches <==> ExcludedByTerm(term, name)
  {
    nodeMatches := false;
    for x := 0 to |term.expressions|
      invariant !nodeMatches
      invariant forall i :: 0 <= i < x ==> !ExcludedBy(term.expressions[i], name)
    {
      var expr := term.expressions[x];
      if expr.key == HOSTNAME && expr.operator == NotIn {
        for v := 0 to |expr.values|
          invariant !nodeMatches && name !in expr.values[..v]
        {
          if name == expr.values[v] {
            nodeMatches := true;
            break;
          }
        }
        if nodeMatches {
          assert expr in term.expressions;
          break;
        }
      }
    }
  }

  // ---------------------------------------------------------------- The scheduler's meaning

  predicate MeetsRequirement(labels: map<string, string>, req: Requirement) {
    match req.operator
    case In => req.key in labels && labels[req.key] in req.values
    case NotIn => req.key !in labels || labels[req.key] !in req.values
    case Exists => req.key in labels
    case DoesNotExist => req.key !in labels
  }

  /** Requirements are ANDed; a term without any selects nothing. */
  predicate MeetsTerm(labels: map<string, string>, term: Term) {
    term.expressions != [] && forall req :: req in term.expressions ==> MeetsRequirement(labels, req)
  }

  /** Terms are ORed. */
  predicate Selected(labels: map<string, string>, terms: seq<Term>) {
    exists term :: term in terms && MeetsTerm(labels, term)
  }

  predicate Schedulable(nodes: seq<Node>, terms: seq<Term>) {
    exists node :: node in nodes && Selected(node.labels, terms)
  }

  /** Every node carries its name as its hostname label. */
  predicate Hostnamed(nodes: seq<Node>) {
    forall node :: node in nodes ==> HOSTNAME in node.labels && node.labels[HOSTNAME] == node.name
  }

  /** The form of affinity the check is made for: lists of hostnames to stay away from. */
  predicate OnlyExcludesHosts(terms: seq<Term>) {
    forall term :: term in terms ==>
      term.expressions != [] && forall req :: req in term.expressions ==> req.key == HOSTNAME && req.operator == NotIn
  }

  // ---------------------------------------------------------------- How the two compare

  lemma TermMeansNotExcluded(node: Node, term: Term)
    requires Hostnamed([node]) && OnlyExcludesHosts([term])
    ensures MeetsTerm(node.labels, term) <==> !ExcludedByTerm(term, node.name)
  {
    assert node in [node] && term in [term];
    forall req | req in term.expressions ensures MeetsRequirement(node.labels, req) <==> !ExcludedBy(req, node.name) {
    }
  }

  /** What the check lets through can be placed, on every cluster. */
  ghost predicate AcceptanceIsSound(terms: seq<Term>) {
    forall nodes :: Hostnamed(nodes) && LeavesANode(nodes, Some(terms)) ==> Schedulable(nodes, terms)
  }

  /** For any terms that is a matter of single nodes: each one that no list excludes has to be
      selected by some term. */
  lemma SoundPerNode(terms: seq<Term>)
    ensures AcceptanceIsSound(terms) <==>
            forall node :: Hostnamed([node]) && !Excluded(terms, node.name) ==> Selected(node.labels, terms)
  {
    if AcceptanceIsSound(terms) {
      forall node: Node | Hostnamed([node]) && !Excluded(terms, node.name) ensures Selected(node.labels, terms) {
        assert node in [node] && LeavesANode([node], Some(terms));
        assert Schedulable([node], terms);
      }
    }
    if forall node :: Hostnamed([node]) && !Excluded(terms, node.name) ==> Selected(node.labels, terms) {
      forall nodes: seq<Node> | Hostnamed(nodes) && LeavesANode(nodes, Some(terms)) ensures Schedulable(nodes, terms) {
        var node :| node in nodes && !Excluded(terms, node.name);
        assert Hostnamed([node]);
      }
    }
  }

  /** A requirement that every node meets which no list excludes. */
  predicate Harmless(req: Requirement) {
    || (req.key == HOSTNAME && (req.operator == NotIn || req.operator == Exists))
    || (req.operator == NotIn && req.values == [])
  }

  predicate HarmlessTerm(term: Term) {
    term.expressions != [] && forall req :: req in term.expressions ==> Harmless(req)
  }

  lemma HarmlessIsMet(node: Node, terms: seq<Term>, term: Term)
    requires Hostnamed([node]) && term in terms && HarmlessTerm(term) && !Excluded(terms, node.name)
    ensures Selected(node.labels, terms)
  {
    assert node in [node];
    assert !ExcludedByTerm(term, node.name);
    forall req | req in term.expressions ensures MeetsRequirement(node.labels, req) {
      assert Harmless(req) && !ExcludedBy(req, node.name);
    }
  }

  /** One harmless term is enough, whatever the others hold: what the check lets through, the
      scheduler can place. */
  lemma AcceptedIsSchedulable(nodes: seq<Node>, terms: seq<Term>, term: Term)
    requires Hostnamed(nodes) && term in terms && HarmlessTerm(term)
    requires LeavesANode(nodes, Some(terms))
    ensures Schedulable(nodes, terms)
  {
    var node :| node in nodes && !Excluded(terms, node.name);
    assert Hostnamed([node]);
    HarmlessIsMet(node, terms, term);
  }

  // ---------------------------------------------------------------- A node that fails a requirement

  /** A text longer than all of these. */
  function Longer(texts: seq<string>): (r: string)
    ensures forall t :: t in texts ==> |t| < |r|
  {
    if texts == [] then "n"
    else
      var front, last := Longer(texts[..|texts| - 1]), texts[|texts| - 1];
      if |last| < |front| then front else last + "n"
  }

  function AllValues(reqs: seq<Requirement>): (r: seq<string>)
    ensures forall req, v :: req in reqs && v in req.values ==> v in r
  {
    if reqs == [] then [] else AllValues(reqs[..|reqs| - 1]) + reqs[|reqs| - 1].values
  }

  /** The labels of a node called `name` that are apt to fail the requirement. */
  function FailingLabels(name: string, req: Requirement): map<string, string> {
    if req.operator == NotIn && req.values != [] && req.key != HOSTNAME then
      map[req.key := req.values[0], HOSTNAME := name]
    else if req.operator == DoesNotExist && req.key != HOSTNAME then
      map[req.key := "", HOSTNAME := name]
    else map[HOSTNAME := name]
  }

  lemma SomeNodeFails(term: Term, req: Requirement) returns (node: Node)
    requires req in term.expressions && !Harmless(req)
    ensures Hostnamed([node]) && !Excluded([term], node.name) && !Selected(node.labels, [term])
  {
    var name := Longer(AllValues(term.expressions));
    node := Node(name, FailingLabels(name, req));
    assert forall t :: t in [term] ==> t == term;
    assert !ExcludedByTerm(term, name);
    assert name !in req.values && !MeetsRequirement(node.labels, req);
  }

  lemma EmptyTermSelectsNothing(term: Term) returns (node: Node)
    requires term.expressions == []
    ensures Hostnamed([node]) && !Excluded([term], node.name) && !Selected(node.labels, [term])
  {
    node := Node("n", map[HOSTNAME := "n"]);
    assert forall t :: t in [term] ==> t == term;
  }

  /** For a single term of any form, acceptance is sound exactly when the term is harmless. */
  lemma SoundForOneTerm(term: Term)
    ensures AcceptanceIsSound([term]) <==> HarmlessTerm(term)
  {
    SoundPerNode([term]);
    if HarmlessTerm(term) {
      forall node: Node | Hostnamed([node]) && !Excluded([term], node.name) ensures Selected(node.labels, [term]) {
        HarmlessIsMet(node, [term], term);
      }
    } else if term.expressions == [] {
      var node := EmptyTermSelectsNothing(term);
    } else {
      var req :| req in term.expressions && !Harmless(req);
      var node := SomeNodeFails(term, req);
    }
  }

  // ---------------------------------------------------------------- Refusal

  /** With at most one term, whatever it holds, what the check refuses cannot be placed. */
  lemma RefusedIsUnschedulable(nodes: seq<Node>, terms: seq<Term>)
    requires Hostnamed(nodes) && |terms| <= 1 && !LeavesANode(nodes, Some(terms))
    ensures !Schedulable(nodes, terms)
  {
    forall node | node in nodes ensures !Selected(node.labels, terms) {
      assert Excluded(terms, node.name);
      var term :| term in terms && ExcludedByTerm(term, node.name);
      var req :| req in term.expressions && ExcludedBy(req, node.name);
      assert !MeetsRequirement(node.labels, req);
    }
  }

  /** No term excludes a hostname that another one allows. */
  ghost predicate TermsAgree(terms: seq<Term>) {
    forall s, t, name :: s in terms && t in terms && ExcludedByTerm(s, name) ==> ExcludedByTerm(t, name)
  }

  ghost predicate VerdictIsExact(terms: seq<Term>) {
    forall nodes :: Hostnamed(nodes) ==> (LeavesANode(nodes, Some(terms)) <==> Schedulable(nodes, terms))
  }

  /** The check reads the terms as if they were ANDed. It is right about every cluster exactly
      when all terms exclude the same hostnames. */
  lemma ExactWhenTermsAgree(terms: seq<Term>)
    requires OnlyExcludesHosts(terms) && terms != []
    ensures VerdictIsExact(terms) <==> TermsAgree(terms)
  {
    if TermsAgree(terms) {
      forall nodes | Hostnamed(nodes) ensures LeavesANode(nodes, Some(terms)) <==> Schedulable(nodes, terms) {
        AgreeingTermsAreExact(nodes, terms);
      }
    } else {
      var s, t, name :| s in terms && t in terms && ExcludedByTerm(s, name) && !ExcludedByTerm(t, name);
      var node := Node(name, map[HOSTNAME := name]);
      TermMeansNotExcluded(node, t);
      assert node in [node] && Hostnamed([node]);
      assert Excluded(terms, name) && !LeavesANode([node], Some(terms));
      assert Selected(node.labels, terms) && Schedulable([node], terms);
    }
  }

  lemma AgreeingTermsAreExact(nodes: seq<Node>, terms: seq<Term>)
    requires Hostnamed(nodes) && OnlyExcludesHosts(terms) && terms != [] && TermsAgree(terms)
    ensures LeavesANode(nodes, Some(terms)) <==> Schedulable(nodes, terms)
  {
    if LeavesANode(nodes, Some(terms)) {
      assert HarmlessTerm(terms[0]);
      AcceptedIsSchedulable(nodes, terms, terms[0]);
    }
    if Schedulable(nodes, terms) {
      var node :| node in nodes && Selected(node.labels, terms);
      var term :| term in terms && MeetsTerm(node.labels, term);
      TermMeansNotExcluded(node, term);
      assert !Excluded(terms, node.name);
    }
  }

  /** A term that asks for a label is not harmless, nor is a list without terms: the check
      accepts this node, and nothing can be placed on it. */
  lemma AcceptedElsewhere()
    ensures var node := Node("n1", map[HOSTNAME := "n1"]);
            var terms := [Term([Requirement("gpu", Exists, [])])];
            && !AcceptanceIsSound(terms) && !AcceptanceIsSound([])
            && Hostnamed([node])
            && LeavesANode([node], Some(terms)) && !Schedulable([node], terms)
            && LeavesANode([node], Some([])) && !Schedulable([node], [])
  {
    var node := Node("n1", map[HOSTNAME := "n1"]);
    var req := Requirement("gpu", Exists, []);
    var term := Term([req]);
    assert node in [node] && req in term.expressions && !Harmless(req);
    SoundForOneTerm(term);
    assert !Excluded([], "n1") && !Selected(node.labels, []);
    SoundPerNode([]);
    assert !MeetsRequirement(node.labels, req);
    assert forall t :: t in [term] ==> t == term;
    assert !ExcludedBy(req, "n1") && !Excluded([term], "n1");
  }
}
