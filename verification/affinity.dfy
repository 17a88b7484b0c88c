/** The affinity rewrite that ties a runner pod to nodes of the operator's own operating system and architecture. */
module NodeAffinities {
  import opened Wrappers

  datatype Operator = In | NotIn | Exists | DoesNotExist | Gt | Lt

  datatype Requirement = Requirement(key: string, operator: Operator, values: seq<string>)

  datatype Term = Term(matchExpressions: seq<Requirement>, matchFields: seq<Requirement>)

  datatype Node = Node(labels: map<string, string>, fields: map<string, string>)

  // ---------- which nodes a selector admits ----------

  /** How the cluster reads a number in a label. */
  type Atoi = string -> Option<int>

  /** An expression over labels; one whose values do not suit its operator is met by no node. */
  predicate Meets(atoi: Atoi, labels: map<string, string>, q: Requirement) {
    match q.operator
    case In => q.values != [] && q.key in labels && labels[q.key] in q.values
    case NotIn => q.values != [] && (q.key !in labels || labels[q.key] !in q.values)
    case Exists => q.values == [] && q.key in labels
    case DoesNotExist => q.values == [] && q.key !in labels
    case Gt => Compares(atoi, labels, q) && atoi(labels[q.key]).value > atoi(q.values[0]).value
    case Lt => Compares(atoi, labels, q) && atoi(labels[q.key]).value < atoi(q.values[0]).value
  }

  predicate Compares(atoi: Atoi, labels: map<string, string>, q: Requirement) {
    |q.values| == 1 && q.key in labels && atoi(labels[q.key]).Some? && atoi(q.values[0]).Some?
  }

  /** A requirement over fields compares with one value. */
  predicate MeetsField(fields: map<string, string>, q: Requirement) {
    var value := if q.key in fields then fields[q.key] else "";
    && |q.values| == 1
    && ((q.operator.In? && value == q.values[0]) || (q.operator.NotIn? && value != q.values[0]))
  }

  predicate IsEmpty(t: Term) {
    t.matchExpressions == [] && t.matchFields == []
  }

  /** All requirements of a term must be met; an empty term matches no node. */
  predicate Matches(atoi: Atoi, n: Node, t: Term) {
    && !IsEmpty(t)
    && (forall q | q in t.matchExpressions :: Meets(atoi, n.labels, q))
    && (forall q | q in t.matchFields :: MeetsField(n.fields, q))
  }

  /** No selector admits every node; a selector admits the nodes that one of its terms matches. */
  predicate Admits(atoi: Atoi, required: Option<seq<Term>>, n: Node) {
    required.None? || exists t :: t in required.value && Matches(atoi, n, t)
  }

  // ---------- the rewrite ----------

  const OS_LABEL := "kubernetes.io/os"
  const ARCH_LABEL := "kubernetes.io/arch"

  function Pinned(t: Term, os: string, arch: string): Term {
    t.(matchExpressions := t.matchExpressions + [Requirement(OS_LABEL, In, [os]), Requirement(ARCH_LABEL, In, [arch])])
  }

  function Terms(required: Option<seq<Term>>): seq<Term> {
    if required.None? || required.value == [] then [Term([], [])] else required.value
  }

  function Rewritten(required: Option<seq<Term>>, os: string, arch: string): seq<Term> {
    var ts := Terms(required);
    seq(|ts|, i requires 0 <= i < |ts| => Pinned(ts[i], os, arch))
  }

  // ---------- the code ----------

  class NodeSelector {
    var nodeSelectorTerms: seq<Term>

    constructor ()
      ensures nodeSelectorTerms == []
    {
      nodeSelectorTerms := [];
    }
  }

  class NodeAffinity {
    var required: NodeSelector?
    var preferred: seq<(int, Term)>

    constructor ()
      ensures required == null && preferred == []
    {
      required, preferred := null, [];
    }
  }

  class Affinity {
    var nodeAffinity: NodeAffinity?

    constructor ()
      ensures nodeAffinity == null
    {
      nodeAffinity := null;
    }

    ghost function Selector(): NodeSelector?
      reads this, nodeAffinity
    {
      if nodeAffinity == null then null else nodeAffinity.required
    }

    /** The required terms, if there is a selector. */
    ghost function Required(): Option<seq<Term>>
      reads this, nodeAffinity, Selector()
    {
      if Selector() == null then None else Some(Selector().nodeSelectorTerms)
    }

    /** What the rewrite may write. */
    ghost function Parts(): set<object>
      reads this, nodeAffinity
    {
      {this} + (if nodeAffinity == null then {} else {nodeAffinity}) + if Selector() == null then {} else {Selector()}
    }
  }

  /** Rewrites in place whatever the affinity already has and makes only the parts it lacks. */
  method WithRuntimeAffinity(affinity: Affinity?, os: string, arch: string) returns (r: Affinity)
    modifies if affinity == null then {} else affinity.Parts()
    ensures if affinity == null then fresh(r) else r == affinity
    ensures affinity != null && old(affinity.nodeAffinity) != null ==>
      && r.nodeAffinity == old(affinity.nodeAffinity)
      && r.nodeAffinity.preferred == old(affinity.nodeAffinity.preferred)
    ensures affinity != null && old(affinity.Selector()) != null ==> r.Selector() == old(affinity.Selector())
    ensures r.Required() == Some(Rewritten(if affinity == null then None else old(affinity.Required()), os, arch))
  {
    ghost var was := if affinity == null then None else affinity.Required();
    if affinity == null { r := new Affinity(); } else { r := affinity; }

    if r.nodeAffinity == null { r.nodeAffinity := new NodeAffinity(); }
    var nodeAffinity := r.nodeAffinity;

    if nodeAffinity.required == null { nodeAffinity.required := new NodeSelector(); }
    var nodeSelector := nodeAffinity.required;

    if |nodeSelector.nodeSelectorTerms| == 0 {
      nodeSelector.nodeSelectorTerms := nodeSelector.nodeSelectorTerms + [Term([], [])];
    }
    ghost var before := nodeAffinity.preferred;
    ghost var terms := nodeSelector.nodeSelectorTerms;
    assert terms == Terms(was);

    for i := 0 to |nodeSelector.nodeSelectorTerms|
      invariant r.nodeAffinity == nodeAffinity && nodeAffinity.required == nodeSelector
      invariant nodeAffinity.preferred == before
      invariant |nodeSelector.nodeSelectorTerms| == |terms|
      invariant forall k :: 0 <= k < |terms| ==>
        nodeSelector.nodeSelectorTerms[k] == if k < i then Pinned(terms[k], os, arch) else terms[k]
    {
      var term := nodeSelector.nodeSelectorTerms[i];
      var pinned := term.matchExpressions + [Requirement(OS_LABEL, In, [os]), Requirement(ARCH_LABEL, In, [arch])];
      nodeSelector.nodeSelectorTerms := nodeSelector.nodeSelectorTerms[i := term.(matchExpressions := pinned)];
    }
    assert nodeSelector.nodeSelectorTerms == Rewritten(was, os, arch);
  }

  // ---------- the theorems ----------

  predicate Labelled(n: Node, os: string, arch: string) {
    && "kubernetes.io/os" in n.labels && n.labels["kubernetes.io/os"] == os
    && "kubernetes.io/arch" in n.labels && n.labels["kubernetes.io/arch"] == arch
  }

  /** A pinned term matches the labelled nodes the term matched, and every labelled node if the term was empty. */
  lemma PinnedMatches(atoi: Atoi, n: Node, t: Term, os: string, arch: string)
    ensures Matches(atoi, n, Pinned(t, os, arch)) <==> Labelled(n, os, arch) && (IsEmpty(t) || Matches(atoi, n, t))
  {
    var qs := Pinned(t, os, arch).matchExpressions;
    var forOs, forArch := Requirement(OS_LABEL, In, [os]), Requirement(ARCH_LABEL, In, [arch]);
    assert qs == t.matchExpressions + [forOs, forArch];
    assert qs[|qs| - 2] == forOs && qs[|qs| - 1] == forArch;
    assert forall q :: q in qs <==> q in t.matchExpressions || q == forOs || q == forArch;
    assert Meets(atoi, n.labels, forOs) && Meets(atoi, n.labels, forArch) <==> Labelled(n, os, arch);
  }

  /** The selector lists no term at all, or a term that requires nothing. */
  predicate HasVoid(required: Option<seq<Term>>) {
    required.Some? && (required.value == [] || exists t :: t in required.value && IsEmpty(t))
  }

  /** What the rewrite does to every affinity and every node: exactly the labelled nodes stay among those admitted, and a
      void selector, which admitted none on its own account, comes to admit every labelled node. */
  lemma RewriteAdmits(atoi: Atoi, required: Option<seq<Term>>, n: Node, os: string, arch: string)
    ensures Admits(atoi, Some(Rewritten(required, os, arch)), n) <==>
      Labelled(n, os, arch) && (Admits(atoi, required, n) || HasVoid(required))
  {
    var ts, rs := Terms(required), Rewritten(required, os, arch);
    forall i | 0 <= i < |ts|
      ensures Matches(atoi, n, rs[i]) <==> Labelled(n, os, arch) && (IsEmpty(ts[i]) || Matches(atoi, n, ts[i]))
    {
      PinnedMatches(atoi, n, ts[i], os, arch);
    }
    if Labelled(n, os, arch) && (Admits(atoi, required, n) || HasVoid(required)) {
      var i :| 0 <= i < |ts| && (IsEmpty(ts[i]) || Matches(atoi, n, ts[i]));
      assert rs[i] in rs;
    }
    if Admits(atoi, Some(rs), n) {
      var t :| t in rs && Matches(atoi, n, t);
      var i :| 0 <= i < |ts| && rs[i] == t;
      assert ts[i] in ts;
    }
  }

  /** The meaning kept: without a selector, or with terms none of which is empty, a node is admitted afterwards exactly when
      it was before and its labels match. */
  lemma MeaningKept(atoi: Atoi, required: Option<seq<Term>>, n: Node, os: string, arch: string)
    requires !HasVoid(required)
    ensures Admits(atoi, Some(Rewritten(required, os, arch)), n) <==> Labelled(n, os, arch) && Admits(atoi, required, n)
  {
    RewriteAdmits(atoi, required, n, os, arch);
  }

  /** Otherwise the meaning widens: every node with matching labels is admitted afterwards, also when all terms are empty or
      none is listed and so no node was admitted before. */
  lemma VoidWidens(atoi: Atoi, required: Option<seq<Term>>, n: Node, os: string, arch: string)
    requires HasVoid(required) && Labelled(n, os, arch)
    ensures Admits(atoi, Some(Rewritten(required, os, arch)), n)
    ensures (forall t | t in required.value :: IsEmpty(t)) ==> !Admits(atoi, required, n)
  {
    RewriteAdmits(atoi, required, n, os, arch);
  }

  /** Rewriting again, as happens when a second pod is built from the same runner object, admits the same nodes as rewriting once. */
  lemma RewriteTwice(atoi: Atoi, required: Option<seq<Term>>, n: Node, os: string, arch: string)
    ensures var once := Some(Rewritten(required, os, arch));
            Admits(atoi, Some(Rewritten(once, os, arch)), n) <==> Admits(atoi, once, n)
  {
    var once := Some(Rewritten(required, os, arch));
    RewriteAdmits(atoi, required, n, os, arch);
    RewriteAdmits(atoi, once, n, os, arch);
    assert once.value[0] in once.value;
    forall t | t in once.value ensures !IsEmpty(t) {
      var i :| 0 <= i < |once.value| && t == once.value[i];
    }
  }
}
