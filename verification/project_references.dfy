/**
 bbox::make: which projects a project depends on, directly or through others.
 */
module ProjectGraph {
  datatype Node = Node(references: set<string>, toolReferences: set<string>)

  type Graph = map<string, Node>

  datatype Result = Names(names: set<string>) | InvalidName(name: string)

  // ---------- reachability ----------

  ghost predicate Edge(g: Graph, a: string, b: string) { a in g && b in g[a].references }

  /** `p` walks along references, one or more of them. */
  ghost predicate Walk(g: Graph, p: seq<string>) {
    |p| >= 2 && forall i, k :: 0 <= i && k == i + 1 < |p| ==> Edge(g, p[i], p[k])
  }

  ghost predicate WalkTo(g: Graph, p: seq<string>, a: string, b: string) { Walk(g, p) && p[0] == a && p[|p| - 1] == b }

  ghost predicate Reaches(g: Graph, a: string, b: string) { exists p :: WalkTo(g, p, a, b) }

  lemma ReachesStep(g: Graph, a: string, b: string)
    requires Edge(g, a, b)
    ensures Reaches(g, a, b)
  {
    assert WalkTo(g, [a, b], a, b);
  }

  lemma ReachesOn(g: Graph, a: string, b: string, c: string)
    requires Reaches(g, a, b) && Edge(g, b, c)
    ensures Reaches(g, a, c)
  {
    var p :| WalkTo(g, p, a, b);
    assert WalkTo(g, p + [c], a, c);
  }

  lemma ReachesTransitive(g: Graph, a: string, b: string, c: string)
    requires Reaches(g, a, b) && Reaches(g, b, c)
    ensures Reaches(g, a, c)
  {
    var p :| WalkTo(g, p, a, b);
    var q :| WalkTo(g, q, b, c);
    var r := p + q[1..];
    forall i, k | 0 <= i && k == i + 1 < |r| ensures Edge(g, r[i], r[k]) {
      if k < |p| { assert Edge(g, p[i], p[k]); } else { assert Edge(g, q[i - |p| + 1], q[k - |p| + 1]); }
    }
    assert WalkTo(g, r, a, c);
  }

  /** A set that holds every reference of `a` and of its own members holds all that `a` reaches. */
  ghost predicate Closed(g: Graph, a: string, s: set<string>) {
    forall x, y :: (x == a || x in s) && Edge(g, x, y) ==> y in s
  }

  lemma {:induction false} ClosedHolds(g: Graph, a: string, s: set<string>, p: seq<string>, b: string)
    requires Closed(g, a, s) && WalkTo(g, p, a, b)
    ensures b in s
    decreases |p|
  {
    var n := |p| - 1;
    assert Edge(g, p[n - 1], p[n]);
    if n > 1 {
      var front := p[..n];
      assert forall i, k :: 0 <= i && k == i + 1 < |front| ==> Edge(g, p[i], p[k]);
      assert WalkTo(g, front, a, p[n - 1]);
      ClosedHolds(g, a, s, front, p[n - 1]);
    }
  }

  ghost predicate AllReach(g: Graph, a: string, s: set<string>) { forall b :: b in s ==> Reaches(g, a, b) }

  /** The set that GetReferencesRecursive is to return. */
  ghost predicate IsClosure(g: Graph, a: string, s: set<string>) { forall b :: b in s <==> Reaches(g, a, b) }

  // ---------- the check of the whole solution ----------

  /** What CheckReferences accepts. */
  ghost predicate Defined(g: Graph) {
    forall a, b :: a in g && (b in g[a].references || b in g[a].toolReferences) ==> b in g
  }

  /** In a solution that was accepted no walk leaves the solution. */
  lemma DefinedReaches(g: Graph, a: string, b: string)
    requires Defined(g) && Reaches(g, a, b)
    ensures b in g
  {
    var p :| WalkTo(g, p, a, b);
    assert Edge(g, p[|p| - 2], p[|p| - 1]);
  }

  /** What a dependency depends on, the project depends on, so the sets of two projects on a cycle agree. */
  lemma ClosureMonotone(g: Graph, a: string, b: string, s: set<string>, t: set<string>)
    requires IsClosure(g, a, s) && IsClosure(g, b, t) && b in s
    ensures t <= s
    ensures a in t ==> t == s
  {
    forall c | c in t ensures c in s { ReachesTransitive(g, a, b, c); }
    if a in t {
      forall c | c in s ensures c in t { ReachesTransitive(g, b, a, c); }
    }
  }

  /** Every name that a walk can meet. */
  ghost function AllNames(g: Graph): set<string> { g.Keys + set a, b | a in g && b in g[a].references :: b }

  /** Everything found so far is defined and its references are found, but for what is still to be checked. */
  ghost predicate Expanded(g: Graph, a: string, s: set<string>, toCheck: set<string>) {
    forall x :: (x == a || x in s) && x !in toCheck ==> x in g && g[x].references <= s
  }

  lemma ExpandedOn(g: Graph, a: string, s: set<string>, list: set<string>, x: string)
    requires x in g && Expanded(g, a, s, list + {x})
    ensures Expanded(g, a, s + g[x].references, list + (g[x].references - s))
  {}

  ghost predicate Progress(g: Graph, a: string, s: set<string>, toCheck: set<string>) {
    toCheck <= s + {a} && s <= AllNames(g) && AllReach(g, a, s) && Expanded(g, a, s, toCheck)
  }

  lemma ProgressStart(g: Graph, a: string)
    ensures Progress(g, a, {}, {a})
  {}

  lemma CheckReached(g: Graph, a: string, s: set<string>, toCheck: set<string>, x: string)
    requires Progress(g, a, s, toCheck) && x in toCheck
    ensures x == a || Reaches(g, a, x)
    ensures Defined(g) && a in g ==> x in g
  {
    if x != a && Defined(g) { DefinedReaches(g, a, x); }
  }

  /** One round of the worklist keeps its invariant and, if it finds nothing new, has one name less to check. */
  lemma ProgressOn(g: Graph, a: string, s: set<string>, toCheck: set<string>, x: string)
    requires Progress(g, a, s, toCheck) && x in toCheck && x in g
    ensures var s', toCheck' := s + g[x].references, toCheck - {x} + (g[x].references - s);
      && Progress(g, a, s', toCheck')
      && (|AllNames(g) - s'| < |AllNames(g) - s| || (s' == s && |toCheck'| < |toCheck|))
  {
    var s', toCheck' := s + g[x].references, toCheck - {x} + (g[x].references - s);
    assert toCheck == toCheck - {x} + {x};
    ExpandedOn(g, a, s, toCheck - {x}, x);
    forall b | b in s' ensures Reaches(g, a, b) && b in AllNames(g) {
      if b !in s { ReachesOne(g, a, x, b); }
    }
    if s' != s { Shrinks(AllNames(g), s, s'); } else { assert toCheck' == toCheck - {x}; }
  }

  lemma ReachesOne(g: Graph, a: string, b: string, c: string)
    requires Edge(g, b, c) && (a == b || Reaches(g, a, b))
    ensures Reaches(g, a, c)
  {
    if Reaches(g, a, b) { ReachesOn(g, a, b, c); } else { ReachesStep(g, a, c); }
  }

  lemma Shrinks(all: set<string>, a: set<string>, b: set<string>)
    requires a < b <= all
    ensures |all - b| < |all - a|
  {
    assert all - a == (all - b) + (b - a);
    assert |all - a| == |all - b| + |b - a|;
    var x :| x in b - a;
    assert |b - a| > 0;
  }

  lemma ClosureFound(g: Graph, a: string, s: set<string>)
    requires Progress(g, a, s, {})
    ensures IsClosure(g, a, s) && a in g && s <= g.Keys
  {
    forall b | Reaches(g, a, b) ensures b in s {
      var p :| WalkTo(g, p, a, b);
      ClosedHolds(g, a, s, p, b);
    }
  }
}

module ProjectReferencesClass {
  import opened ProjectGraph

  datatype AddError = Added | OtherKind | Duplicate

  class Project {
    const name: string
    var references: set<string>
    var toolReferences: set<string>

    constructor (projectName: string)
      ensures name == projectName && references == {} && toolReferences == {}
    {
      name, references, toolReferences := projectName, {}, {};
    }

    ghost predicate Valid()
      reads this
    {
      references !! toolReferences
    }

    /** A name is added at most once, and as one kind of reference only. */
    method AddReference(reference: string) returns (e: AddError)
      requires Valid()
      modifies this
      ensures Valid() && toolReferences == old(toolReferences)
      ensures references == if e == Added then old(references) + {reference} else old(references)
      ensures e == Added <==> reference !in old(references) + old(toolReferences)
      ensures e == Duplicate <==> reference in old(references)
    {
      if reference in toolReferences { return OtherKind; }
      if reference in references { return Duplicate; }
      references := references + {reference};
      return Added;
    }

    method AddToolReference(reference: string) returns (e: AddError)
      requires Valid()
      modifies this
      ensures Valid() && references == old(references)
      ensures toolReferences == if e == Added then old(toolReferences) + {reference} else old(toolReferences)
      ensures e == Added <==> reference !in old(references) + old(toolReferences)
      ensures e == Duplicate <==> reference in old(toolReferences)
    {
      if reference in references { return OtherKind; }
      if reference in toolReferences { return Duplicate; }
      toolReferences := toolReferences + {reference};
      return Added;
    }
  }

  datatype CheckResult = AllDefined | Undefined(reference: string, project: string, tool: bool)

  class Solution {
    var projects: map<string, Project>

    ghost function View(): Graph
      reads this, projects.Values
    {
      map a | a in projects :: Node(projects[a].references, projects[a].toolReferences)
    }

    /** The worklist, which takes its names in any order. It ends on every graph, cyclic or not; it fails
        exactly when it meets a name that is not defined, and otherwise finds what is reachable. In a
        solution that CheckReferences accepted it cannot fail. */
    method GetReferencesRecursive(name: string) returns (r: Result)
      ensures r.Names? ==> IsClosure(View(), name, r.names) && name in View() && r.names <= View().Keys
      ensures r.InvalidName? ==> r.name !in View() && (r.name == name || Reaches(View(), name, r.name))
      ensures Defined(View()) && name in View() ==> r.Names?
    {
      hide Reaches, AllNames, IsClosure, Defined, Progress;
      ghost var g := View();
      var result: set<string>, toCheck := {}, {name};
      ProgressStart(g, name);
      while toCheck != {}
        invariant Progress(g, name, result, toCheck)
        decreases |AllNames(g) - result|, |toCheck|
      {
        var check :| check in toCheck;
        CheckReached(g, name, result, toCheck, check);
        if check !in projects { return InvalidName(check); }
        ProgressOn(g, name, result, toCheck, check);
        toCheck := toCheck - {check};
        result, toCheck := AddReferences(projects[check].references, result, toCheck);
      }
      ClosureFound(g, name, result);
      return Names(result);
    }

    /** The inner loop: the references of one project that are not in the result yet go into both sets. */
    static method AddReferences(references: set<string>, before: set<string>, list: set<string>)
        returns (result: set<string>, toCheck: set<string>)
      ensures result == before + references && toCheck == list + (references - before)
    {
      result, toCheck := before, list;
      var rest := references;
      while rest != {}
        invariant rest <= references
        invariant result == before + (references - rest)
        invariant toCheck == list + (references - rest - before)
        decreases rest
      {
        var ref :| ref in rest;
        rest := rest - {ref};
        if ref !in result {
          result := result + {ref};
          toCheck := toCheck + {ref};
        }
      }
    }

    method GetSelfPlusReferencesRecursive(name: string) returns (r: Result)
      ensures r.Names? ==> forall b :: b in r.names <==> b == name || Reaches(View(), name, b)
      ensures r.InvalidName? ==> r.name !in View() && (r.name == name || Reaches(View(), name, r.name))
    {
      r := GetReferencesRecursive(name);
      if r.Names? { r := Names(r.names + {name}); }
    }

    /** Accepts exactly the solutions in which every reference is defined; otherwise names one that is not. */
    method CheckReferences() returns (r: CheckResult)
      ensures r.AllDefined? <==> Defined(View())
      ensures r.Undefined? ==> r.reference !in View() && r.project in View()
      ensures r.Undefined? ==> if r.tool then r.reference in View()[r.project].toolReferences
                               else r.reference in View()[r.project].references
      ensures r.Undefined? && r.tool ==> View()[r.project].references <= View().Keys
    {
      var rest := projects.Keys;
      while rest != {}
        invariant rest <= projects.Keys
        invariant forall a :: a in projects && a !in rest ==>
          View()[a].references + View()[a].toolReferences <= View().Keys
        decreases rest
      {
        var a :| a in rest;
        rest := rest - {a};
        var missing, ref := FindMissing(projects[a].references);
        assert missing ==> a in View() && ref in View()[a].references && ref !in View();
        if missing { return Undefined(ref, a, false); }
        missing, ref := FindMissing(projects[a].toolReferences);
        assert missing ==> a in View() && ref in View()[a].toolReferences && ref !in View();
        if missing { return Undefined(ref, a, true); }
      }
      return AllDefined;
    }

    method FindMissing(references: set<string>) returns (missing: bool, ref: string)
      ensures missing ==> ref in references && ref !in projects
      ensures !missing ==> references <= projects.Keys
    {
      var rest := references;
      while rest != {}
        invariant rest <= references && references - rest <= projects.Keys
        decreases rest
      {
        ref :| ref in rest;
        rest := rest - {ref};
        if ref !in projects { return true, ref; }
      }
      return false, "";
    }
  }
}
