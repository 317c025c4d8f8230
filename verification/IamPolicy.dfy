/** IAM policy bindings and the two edits the reconciler makes to them
    (internal/controller/serviceaccount_controller.go). */
module IamPolicy {
  import opened Text
  import opened ServiceAccounts

  const WI_ROLE := "roles/iam.workloadIdentityUser"
  const CONDITION_KEY := "ssbucketeer.namespacedName"

  /** A condition expression: always true, or true before an instant given in whole seconds (the
      text of the instant is represented by the second it denotes), or text from another writer. */
  datatype Expression = Always | Until(second: int) | Other(text: string)

  /** A binding with its condition; `description` stands for the parts of a condition that the
      reconciler neither compares nor sets. */
  datatype Binding = Binding(role: string, members: seq<string>, title: string, expression: Expression,
                             description: string)

  /** The condition title that marks a ServiceAccount's binding. */
  function Title(nn: NamespacedName): string {
    CONDITION_KEY + "=" + (nn.namespace + "/" + nn.name)
  }

  function GcpSaRef(project: string, group: string): string {
    "projects/" + project + "/serviceAccounts/" + group + "@" + project + ".iam.gserviceaccount.com"
  }

  function GcpSaEmail(project: string, group: string): string {
    group + "@" + project + ".iam.gserviceaccount.com"
  }

  function K8sSaRef(clusterProject: string, nn: NamespacedName): string {
    "serviceAccount:" + clusterProject + ".svc.id.goog[" + nn.namespace + "/" + nn.name + "]"
  }

  /** Slash-free names have different titles. */
  lemma TitleInjective(a: NamespacedName, b: NamespacedName)
    requires IsName(a) && IsName(b)
    requires Title(a) == Title(b)
    ensures a == b
  {
    var k := |CONDITION_KEY + "="|;
    assert Title(a)[k..] == a.namespace + "/" + a.name;
    assert Title(b)[k..] == b.namespace + "/" + b.name;
    FirstSeparatorSplits(a.namespace, a.name, b.namespace, b.name, '/');
  }

  /** With slashes allowed, two different names can share a title. */
  lemma TitlesCollideWithSlashes()
    ensures Title(NamespacedName("a/b", "c")) == Title(NamespacedName("a", "b/c"))
  {
    assert "a/b" + "/" + "c" == "a" + "/" + "b/c";
  }

  /** The account whose policy is edited is the one the workload-identity annotation names. */
  lemma RefNamesEmail(project: string, group: string)
    ensures GcpSaRef(project, group) == "projects/" + project + "/serviceAccounts/" + GcpSaEmail(project, group)
  {
    var front := "projects/" + project + "/serviceAccounts/";
    var back := "@" + project + ".iam.gserviceaccount.com";
    assert front + group + back == front + (group + back);
  }

  /** Slash-free names are different members. */
  lemma K8sSaRefInjective(clusterProject: string, a: NamespacedName, b: NamespacedName)
    requires IsName(a) && IsName(b)
    requires K8sSaRef(clusterProject, a) == K8sSaRef(clusterProject, b)
    ensures a == b
  {
    var front := "serviceAccount:" + clusterProject + ".svc.id.goog[";
    var x, y := a.namespace + "/" + a.name, b.namespace + "/" + b.name;
    assert K8sSaRef(clusterProject, a) == front + x + "]" && K8sSaRef(clusterProject, b) == front + y + "]";
    assert |x| == |y|;
    assert x == (front + x + "]")[|front|..|front| + |x|] && y == (front + y + "]")[|front|..|front| + |y|];
    FirstSeparatorSplits(a.namespace, a.name, b.namespace, b.name, '/');
  }

  /** Different groups have different policies. */
  lemma GcpSaRefInjective(project: string, g: string, h: string)
    requires GcpSaRef(project, g) == GcpSaRef(project, h)
    ensures g == h
  {
    var front := "projects/" + project + "/serviceAccounts/";
    var back := "@" + project + ".iam.gserviceaccount.com";
    assert GcpSaRef(project, g) == front + g + back;
    assert GcpSaRef(project, h) == front + h + back;
    assert |g| == |h|;
    assert g == (front + g + back)[|front|..|front| + |g|];
    assert h == (front + h + back)[|front|..|front| + |h|];
  }

  predicate HasTitle(bindings: seq<Binding>, title: string) {
    exists b | b in bindings :: b.title == title
  }

  /** The bindings with the given title, in order. */
  function Titled(bindings: seq<Binding>, title: string): seq<Binding> {
    if bindings == [] then []
    else if bindings[0].title == title then [bindings[0]] + Titled(bindings[1..], title)
    else Titled(bindings[1..], title)
  }

  /** The bindings with any other title, in order; this is also what removal leaves behind. */
  function Others(bindings: seq<Binding>, title: string): seq<Binding> {
    if bindings == [] then []
    else if bindings[0].title == title then Others(bindings[1..], title)
    else [bindings[0]] + Others(bindings[1..], title)
  }

  /** The position of the first binding with the title, or the length. */
  function IndexOf(bindings: seq<Binding>, title: string): (k: nat)
    ensures k <= |bindings|
    ensures k < |bindings| ==> bindings[k].title == title
    ensures forall i | 0 <= i < k :: bindings[i].title != title
    ensures k == |bindings| <==> !HasTitle(bindings, title)
  {
    if bindings == [] then 0
    else if bindings[0].title == title then 0
    else 1 + IndexOf(bindings[1..], title)
  }

  /** The comparison that decides whether an existing binding is rewritten. */
  predicate Agrees(b: Binding, wanted: Binding) {
    b.role == WI_ROLE && b.members == wanted.members && b.expression == wanted.expression
  }

  /** There is a binding with the wanted title and the first one agrees, so nothing is written. */
  predicate InOrder(bindings: seq<Binding>, wanted: Binding) {
    var k := IndexOf(bindings, wanted.title);
    k < |bindings| && Agrees(bindings[k], wanted)
  }

  /** The first binding with the wanted title is made to agree, or the wanted binding is appended. */
  function Ensure(bindings: seq<Binding>, wanted: Binding): seq<Binding> {
    var k := IndexOf(bindings, wanted.title);
    if k == |bindings| then bindings + [wanted]
    else if Agrees(bindings[k], wanted) then bindings
    else bindings[k := wanted]
  }

  lemma {:induction false} OthersConcat(a: seq<Binding>, b: seq<Binding>, title: string)
    ensures Others(a + b, title) == Others(a, title) + Others(b, title)
    ensures Titled(a + b, title) == Titled(a, title) + Titled(b, title)
  {
    if a == [] {
      assert a + b == b;
    } else {
      var rest := a[1..];
      OthersConcat(rest, b, title);
      assert (a + b)[0] == a[0] && (a + b)[1..] == rest + b;
      ConsConcat(a[0], Others(rest, title), Others(b, title));
      ConsConcat(a[0], Titled(rest, title), Titled(b, title));
    }
  }

  /** Removal leaves no binding with the title, and every other binding in place. */
  lemma {:induction false} OthersHasNoTitle(bindings: seq<Binding>, title: string)
    ensures !HasTitle(Others(bindings, title), title)
    ensures forall b | b in Others(bindings, title) :: b in bindings
    ensures Others(Others(bindings, title), title) == Others(bindings, title)
    ensures |Others(bindings, title)| + |Titled(bindings, title)| == |bindings|
  {
    if bindings != [] {
      OthersHasNoTitle(bindings[1..], title);
      var rest := Others(bindings[1..], title);
      assert ([bindings[0]] + rest)[1..] == rest;
    }
  }

  /** Without the title removal changes nothing, and its absence is visible in the length. */
  lemma {:induction false} OthersUnchangedIff(bindings: seq<Binding>, title: string)
    ensures !HasTitle(bindings, title) <==> Others(bindings, title) == bindings
    ensures !HasTitle(bindings, title) <==> Titled(bindings, title) == []
  {
    OthersHasNoTitle(bindings, title);
    if bindings != [] {
      OthersUnchangedIff(bindings[1..], title);
      OthersHasNoTitle(bindings[1..], title);
      assert HasTitle(bindings, title) <==> bindings[0].title == title || HasTitle(bindings[1..], title);
    }
  }

  /** Bindings titled `t` are untouched by anything that keeps the rest around `title`. */
  lemma {:induction false} TitledThroughOthers(bindings: seq<Binding>, title: string, t: string)
    requires t != title
    ensures Titled(Others(bindings, title), t) == Titled(bindings, t)
  {
    if bindings != [] {
      TitledThroughOthers(bindings[1..], title, t);
      var rest := Others(bindings[1..], title);
      assert ([bindings[0]] + rest)[1..] == rest;
    }
  }

  lemma {:induction false} TitledMembers(bindings: seq<Binding>, t: string, b: Binding)
    ensures b in Titled(bindings, t) <==> b in bindings && b.title == t
  {
    if bindings != [] {
      TitledMembers(bindings[1..], t, b);
    }
  }

  /** Ensuring a binding keeps every binding with another title, in order. */
  lemma EnsureKeepsOthers(bindings: seq<Binding>, wanted: Binding)
    ensures Others(Ensure(bindings, wanted), wanted.title) == Others(bindings, wanted.title)
  {
    var t := wanted.title;
    var k := IndexOf(bindings, t);
    if k == |bindings| {
      OthersConcat(bindings, [wanted], t);
    } else {
      var front, back := bindings[..k], bindings[k + 1..];
      assert bindings == front + [bindings[k]] + back;
      assert bindings[k := wanted] == front + [wanted] + back;
      OthersConcat(front, [bindings[k]], t);
      OthersConcat(front + [bindings[k]], back, t);
      OthersConcat(front, [wanted], t);
      OthersConcat(front + [wanted], back, t);
    }
  }

  /** After ensuring, the first binding with the title agrees with the wanted one; with at most one
      before there is exactly one after; and nothing is left to do. */
  lemma EnsureEstablishes(bindings: seq<Binding>, wanted: Binding)
    requires wanted.role == WI_ROLE
    ensures var after := Ensure(bindings, wanted);
            && Titled(after, wanted.title) != []
            && Agrees(Titled(after, wanted.title)[0], wanted)
            && |Titled(after, wanted.title)|
                 == (if |Titled(bindings, wanted.title)| == 0 then 1 else |Titled(bindings, wanted.title)|)
            && InOrder(after, wanted)
  {
    var t := wanted.title;
    var after := Ensure(bindings, wanted);
    var k := IndexOf(bindings, t);
    EnsureKeepsOthers(bindings, wanted);
    OthersHasNoTitle(bindings, t);
    OthersHasNoTitle(after, t);
    OthersUnchangedIff(bindings, t);
    assert after[k].title == t && forall i | 0 <= i < k :: after[i].title != t;
    assert after[k] in after;
    FirstTitled(after, t, k);
  }

  /** Said of the bindings themselves: after ensuring, the first binding with the title has the
      operator's role, the wanted members and the wanted expression, and there is one if there was none. */
  lemma EnsureGivesWanted(bindings: seq<Binding>, wanted: Binding)
    requires wanted.role == WI_ROLE
    ensures var before, own := Titled(bindings, wanted.title), Titled(Ensure(bindings, wanted), wanted.title);
            && |own| == (if before == [] then 1 else |before|)
            && own[0].role == WI_ROLE
            && own[0].members == wanted.members
            && own[0].expression == wanted.expression
  {
    EnsureEstablishes(bindings, wanted);
    OthersHasNoTitle(bindings, wanted.title);
  }

  /** And the policy is in order, so that nothing is written, exactly if the first binding with the title
      has those already. */
  lemma InOrderIff(bindings: seq<Binding>, wanted: Binding)
    ensures var own := Titled(bindings, wanted.title);
            InOrder(bindings, wanted) <==>
              && own != []
              && own[0].role == WI_ROLE
              && own[0].members == wanted.members
              && own[0].expression == wanted.expression
    ensures InOrder(bindings, wanted) ==> Ensure(bindings, wanted) == bindings
  {
    var k := IndexOf(bindings, wanted.title);
    OthersUnchangedIff(bindings, wanted.title);
    if k < |bindings| {
      FirstTitled(bindings, wanted.title, k);
    }
  }

  lemma {:induction false} FirstTitled(bindings: seq<Binding>, t: string, k: nat)
    requires k < |bindings| && bindings[k].title == t
    requires forall i | 0 <= i < k :: bindings[i].title != t
    ensures Titled(bindings, t) != [] && Titled(bindings, t)[0] == bindings[k]
    ensures IndexOf(bindings, t) == k
  {
    if k > 0 {
      FirstTitled(bindings[1..], t, k - 1);
    }
  }
}
