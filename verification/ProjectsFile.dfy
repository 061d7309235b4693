/** Normalising the file of known projects (desktop/tabs.go:2917-3000). */
module ProjectsFile {
  import opened Common
  import opened StringLists

  /** Stands for the global folder in the sidebar order. */
  const GLOBAL_TOKEN := "__global__"

  datatype Project = Project(root: string, title: string, color: string, topics: seq<string>, pinnedTopics: seq<string>)

  datatype File = File(
    globalTitle: string, globalColor: string, globalTopics: seq<string>, globalPinnedTopics: seq<string>,
    pinnedProjects: seq<string>, sidebarOrder: seq<string>, projects: seq<Project>)

  /** How root paths and colours are normalised. */
  datatype Norms = Norms(root: string -> string, color: string -> string)

  /** What normalising a root path does whatever the path: it starts by trimming, gives
      nothing exactly for a blank, and never a path that only looks blank or like the token.
      The result may carry space at its end, and may normalise further. */
  ghost predicate PathLike(n: Norms) {
    forall x {:trigger PathLikeAt(n, x)} :: PathLikeAt(n, x)
  }

  predicate PathLikeAt(n: Norms, x: string) {
    && n.root(x) == n.root(Trim(x)) && (n.root(x) == "" <==> Trim(x) == "")
    && (Trim(n.root(x)) == "" ==> n.root(x) == "")
    && (Trim(n.root(x)) == GLOBAL_TOKEN ==> n.root(x) == GLOBAL_TOKEN)
  }

  ghost predicate ColorsSettle(n: Norms) {
    forall x {:trigger ColorSettlesAt(n, x)} :: ColorSettlesAt(n, x)
  }

  predicate ColorSettlesAt(n: Norms, x: string) {
    n.color(n.color(x)) == n.color(x)
  }

  // ---------------------------------------------------------------------------- projects

  function Clean(n: Norms, p: Project): Project {
    Project(n.root(p.root), Trim(p.title), n.color(p.color), Unique(p.topics), Unique(p.pinnedTopics))
  }

  function Merge(a: Project, b: Project): Project {
    a.(title := if a.title == "" then b.title else a.title,
       color := if a.color == "" then b.color else a.color,
       topics := Unique(a.topics + b.topics),
       pinnedTopics := Unique(a.pinnedTopics + b.pinnedTopics))
  }

  predicate HasRoot(ps: seq<Project>, root: string) {
    exists i :: 0 <= i < |ps| && ps[i].root == root
  }

  predicate DistinctRoots(ps: seq<Project>) {
    forall i, j :: 0 <= i < j < |ps| ==> ps[i].root != ps[j].root
  }

  /** Adds a project, or folds it into the one that has its root. */
  function Folded(ps: seq<Project>, p: Project): seq<Project> {
    if ps == [] then [p]
    else if ps[0].root == p.root then [Merge(ps[0], p)] + ps[1..]
    else [ps[0]] + Folded(ps[1..], p)
  }

  function Normalized(n: Norms, ps: seq<Project>): seq<Project> {
    if ps == [] then []
    else
      var before := Normalized(n, ps[..|ps| - 1]);
      var p := Clean(n, ps[|ps| - 1]);
      if p.root == "" then before else Folded(before, p)
  }

  /** All fields but the root are normal. */
  predicate FieldsNormal(n: Norms, p: Project) {
    Clean(n, p) == p.(root := n.root(p.root))
  }

  predicate AllNormal(n: Norms, ps: seq<Project>) {
    DistinctRoots(ps) && forall p :: p in ps ==> p.root != "" && FieldsNormal(n, p)
  }

  lemma CleanFields(n: Norms, p: Project)
    requires ColorsSettle(n)
    ensures FieldsNormal(n, Clean(n, p))
  {
    assert ColorSettlesAt(n, p.color);
    TrimIsTrimmed(p.title);
    TrimmedStays(Trim(p.title));
    UniqueTwice(p.topics);
    UniqueTwice(p.pinnedTopics);
  }

  lemma MergeFields(n: Norms, a: Project, b: Project)
    requires FieldsNormal(n, a) && FieldsNormal(n, b)
    ensures FieldsNormal(n, Merge(a, b))
  {
    UniqueTwice(a.topics + b.topics);
    UniqueTwice(a.pinnedTopics + b.pinnedTopics);
  }

  /** What folding a project in does at each position. */
  lemma {:induction false} FoldedAt(ps: seq<Project>, p: Project)
    requires DistinctRoots(ps)
    ensures var r := Folded(ps, p);
            && |r| == (if HasRoot(ps, p.root) then |ps| else |ps| + 1)
            && (forall i :: 0 <= i < |ps| ==> r[i] == if ps[i].root == p.root then Merge(ps[i], p) else ps[i])
            && (forall i :: 0 <= i < |ps| ==> r[i].root == ps[i].root)
            && (!HasRoot(ps, p.root) ==> r[|ps|] == p)
  {
    if ps != [] {
      if ps[0].root != p.root {
        var rest := ps[1..];
        FoldedAt(rest, p);
        assert HasRoot(rest, p.root) <==> HasRoot(ps, p.root) by {
          if i :| 0 <= i < |ps| && ps[i].root == p.root {
            assert rest[i - 1].root == p.root;
          }
          if i :| 0 <= i < |rest| && rest[i].root == p.root {
            assert ps[i + 1].root == p.root;
          }
        }
      } else {
        assert HasRoot(ps, p.root);
      }
    }
  }

  lemma {:induction false} FoldedNew(ps: seq<Project>, p: Project)
    requires forall i :: 0 <= i < |ps| ==> ps[i].root != p.root
    ensures Folded(ps, p) == ps + [p]
  {
    if ps != [] {
      FoldedNew(ps[1..], p);
      assert ps + [p] == [ps[0]] + (ps[1..] + [p]);
    }
  }

  /** The projects come out with distinct, non-empty roots and all other fields normal. */
  lemma {:induction false} NormalizedIsNormal(n: Norms, ps: seq<Project>)
    requires ColorsSettle(n)
    ensures AllNormal(n, Normalized(n, ps))
  {
    if ps != [] {
      var before := Normalized(n, ps[..|ps| - 1]);
      var p := Clean(n, ps[|ps| - 1]);
      NormalizedIsNormal(n, ps[..|ps| - 1]);
      if p.root != "" {
        CleanFields(n, ps[|ps| - 1]);
        FoldedRootsDiffer(before, p);
        FoldedFields(n, before, p);
      }
    }
  }

  lemma {:induction false} NormalizedRootsDiffer(n: Norms, ps: seq<Project>)
    ensures DistinctRoots(Normalized(n, ps))
  {
    if ps != [] {
      NormalizedRootsDiffer(n, ps[..|ps| - 1]);
      FoldedRootsDiffer(Normalized(n, ps[..|ps| - 1]), Clean(n, ps[|ps| - 1]));
    }
  }

  lemma FoldedRootsDiffer(ps: seq<Project>, p: Project)
    requires DistinctRoots(ps)
    ensures DistinctRoots(Folded(ps, p))
  {
    FoldedAt(ps, p);
    var r := Folded(ps, p);
    forall i, j | 0 <= i < j < |r| ensures r[i].root != r[j].root {
      assert r[i].root == ps[i].root;
    }
  }

  lemma {:induction false} FoldedFields(n: Norms, ps: seq<Project>, p: Project)
    requires (forall q :: q in ps ==> q.root != "" && FieldsNormal(n, q)) && p.root != "" && FieldsNormal(n, p)
    ensures forall q :: q in Folded(ps, p) ==> q.root != "" && FieldsNormal(n, q)
  {
    if ps != [] {
      if ps[0].root == p.root {
        assert ps[0] in ps;
        MergeFields(n, ps[0], p);
      } else {
        FoldedFields(n, ps[1..], p);
      }
    }
  }

  /** Normal projects whose roots are settled come out as they are. */
  lemma {:induction false} NormalStays(n: Norms, ps: seq<Project>)
    requires AllNormal(n, ps) && forall p :: p in ps ==> n.root(p.root) == p.root
    ensures Normalized(n, ps) == ps
  {
    if ps != [] {
      var k := |ps| - 1;
      assert ps == ps[..k] + [ps[k]] && ps[k] in ps;
      NormalStays(n, ps[..k]);
      FoldedNew(ps[..k], ps[k]);
    }
  }

  /** Normalising never adds projects. */
  lemma {:induction false} NormalizedLength(n: Norms, ps: seq<Project>)
    ensures |Normalized(n, ps)| <= |ps|
  {
    if ps != [] {
      var k := |ps| - 1;
      NormalizedLength(n, ps[..k]);
      NormalizedRootsDiffer(n, ps[..k]);
      FoldedAt(Normalized(n, ps[..k]), Clean(n, ps[k]));
    }
  }

  /** The last project was neither dropped nor folded into another. */
  lemma LastIsKept(n: Norms, ps: seq<Project>)
    requires ps != [] && |Normalized(n, ps)| == |ps|
    ensures var k := |ps| - 1;
            |Normalized(n, ps[..k])| == k && Normalized(n, ps) == Normalized(n, ps[..k]) + [Clean(n, ps[k])]
  {
    var k := |ps| - 1;
    var before, p := Normalized(n, ps[..k]), Clean(n, ps[k]);
    NormalizedLength(n, ps[..k]);
    NormalizedRootsDiffer(n, ps[..k]);
    FoldedAt(before, p);
    assert p.root != "" && |before| == k && !HasRoot(before, p.root);
    FoldedNew(before, p);
  }

  predicate EachClean(n: Norms, ps: seq<Project>, out: seq<Project>) {
    |out| == |ps| && forall i :: 0 <= i < |ps| ==> out[i] == Clean(n, ps[i])
  }

  lemma EachCleanMore(n: Norms, ps: seq<Project>, out: seq<Project>)
    requires ps != [] && EachClean(n, ps[..|ps| - 1], out)
    ensures EachClean(n, ps, out + [Clean(n, ps[|ps| - 1])])
  {
    forall i | 0 <= i < |ps| - 1 ensures out[i] == Clean(n, ps[i]) {
      assert ps[..|ps| - 1][i] == ps[i];
    }
  }

  /** It drops or folds none only if each comes out as its own clean form. */
  lemma {:induction false} NormalizedFull(n: Norms, ps: seq<Project>)
    requires |Normalized(n, ps)| == |ps|
    ensures EachClean(n, ps, Normalized(n, ps))
  {
    if ps != [] {
      var k := |ps| - 1;
      LastIsKept(n, ps);
      NormalizedFull(n, ps[..k]);
      EachCleanMore(n, ps, Normalized(n, ps[..k]));
    }
  }

  /** Normalising the projects again changes nothing exactly when their roots are settled. */
  lemma NormalizedTwiceExactly(n: Norms, ps: seq<Project>)
    requires ColorsSettle(n)
    ensures var out := Normalized(n, ps);
            Normalized(n, out) == out <==> forall p :: p in out ==> n.root(p.root) == p.root
  {
    var out := Normalized(n, ps);
    NormalizedIsNormal(n, ps);
    if forall p :: p in out ==> n.root(p.root) == p.root {
      NormalStays(n, out);
    }
    if Normalized(n, out) == out {
      NormalizedFull(n, out);
    }
  }

  lemma HasRootHead(ps: seq<Project>, root: string)
    requires ps != []
    ensures HasRoot(ps, root) <==> ps[0].root == root || HasRoot(ps[1..], root)
  {
    var rest := ps[1..];
    if i :| 0 <= i < |ps| && ps[i].root == root {
      assert i > 0 ==> rest[i - 1].root == root;
    }
    if i :| 0 <= i < |rest| && rest[i].root == root {
      assert ps[i + 1].root == root;
    }
  }

  lemma {:induction false} FoldedHasRoot(ps: seq<Project>, p: Project, root: string)
    ensures HasRoot(Folded(ps, p), root) <==> HasRoot(ps, root) || p.root == root
  {
    var r := Folded(ps, p);
    HasRootHead(r, root);
    if ps == [] {
      assert r[1..] == [];
    } else {
      HasRootHead(ps, root);
      if ps[0].root == p.root {
        assert r[1..] == ps[1..];
      } else {
        FoldedHasRoot(ps[1..], p, root);
        assert r[1..] == Folded(ps[1..], p);
      }
    }
  }

  /** Some listed project's path normalises to the root. */
  predicate Spells(n: Norms, ps: seq<Project>, root: string) {
    exists j :: 0 <= j < |ps| && n.root(ps[j].root) == root
  }

  lemma SpellsLast(n: Norms, ps: seq<Project>, root: string)
    requires ps != []
    ensures Spells(n, ps, root) <==> Spells(n, ps[..|ps| - 1], root) || n.root(ps[|ps| - 1].root) == root
  {
    var before := ps[..|ps| - 1];
    if j :| 0 <= j < |ps| && n.root(ps[j].root) == root {
      assert j < |before| ==> n.root(before[j].root) == root;
    }
    if j :| 0 <= j < |before| && n.root(before[j].root) == root {
      assert n.root(ps[j].root) == root;
    }
  }

  /** The roots that come out are the normal forms of those that went in. */
  lemma {:induction false} RootsAreKept(n: Norms, ps: seq<Project>, root: string)
    requires root != ""
    ensures HasRoot(Normalized(n, ps), root) <==> Spells(n, ps, root)
  {
    if ps != [] {
      var k := |ps| - 1;
      RootsAreKept(n, ps[..k], root);
      SpellsLast(n, ps, root);
      FoldedHasRoot(Normalized(n, ps[..k]), Clean(n, ps[k]), root);
    }
  }

  /** Normalising a listed root once more would not change it. */
  predicate RootsSettle(n: Norms, ps: seq<Project>) {
    forall i :: 0 <= i < |ps| ==> n.root(n.root(ps[i].root)) == n.root(ps[i].root)
  }

  lemma KeptRootSettled(n: Norms, ps: seq<Project>, i: nat)
    requires i < |ps| && n.root(ps[i].root) != ""
    requires forall p :: p in Normalized(n, ps) ==> n.root(p.root) == p.root
    ensures n.root(n.root(ps[i].root)) == n.root(ps[i].root)
  {
    var out := Normalized(n, ps);
    RootsAreKept(n, ps, n.root(ps[i].root));
    assert Spells(n, ps, n.root(ps[i].root));
    var k :| 0 <= k < |out| && out[k].root == n.root(ps[i].root);
    assert out[k] in out;
  }

  lemma SettledRoots(n: Norms, ps: seq<Project>)
    requires PathLike(n) && ColorsSettle(n)
    ensures RootsSettle(n, ps) <==> forall p :: p in Normalized(n, ps) ==> n.root(p.root) == p.root
  {
    var out := Normalized(n, ps);
    NormalizedIsNormal(n, ps);
    if RootsSettle(n, ps) {
      forall p | p in out ensures n.root(p.root) == p.root {
        var i :| 0 <= i < |out| && out[i] == p;
        RootsAreKept(n, ps, p.root);
        var j :| 0 <= j < |ps| && n.root(ps[j].root) == p.root;
        assert n.root(n.root(ps[j].root)) == n.root(ps[j].root);
      }
    }
    if forall p :: p in out ==> n.root(p.root) == p.root {
      forall i | 0 <= i < |ps| ensures n.root(n.root(ps[i].root)) == n.root(ps[i].root) {
        if n.root(ps[i].root) != "" {
          KeptRootSettled(n, ps, i);
        } else {
          TrimmedStays("");
          assert PathLikeAt(n, "");
        }
      }
    }
  }

  /** A field whose lists are joined on merging: the topics, the pinned topics. */
  ghost predicate ListsJoin(list: Project -> seq<string>) {
    forall a, b {:trigger JoinsAt(list, a, b)} :: JoinsAt(list, a, b)
  }

  predicate JoinsAt(list: Project -> seq<string>, a: Project, b: Project) {
    list(Merge(a, b)) == Unique(list(a) + list(b))
  }

  ghost predicate ListsCleaned(n: Norms, list: Project -> seq<string>) {
    forall p {:trigger Clean(n, p)} :: list(Clean(n, p)) == Unique(list(p))
  }

  function ListAt(ps: seq<Project>, list: Project -> seq<string>, root: string): seq<string> {
    if ps == [] then [] else if ps[0].root == root then list(ps[0]) else ListAt(ps[1..], list, root)
  }

  /** The lists the input gives under any spelling of the root, one after another. */
  function Given(n: Norms, ps: seq<Project>, list: Project -> seq<string>, root: string): seq<string> {
    if ps == [] then []
    else
      var p := ps[|ps| - 1];
      Given(n, ps[..|ps| - 1], list, root) + (if n.root(p.root) == root then list(p) else [])
  }

  lemma ListAtHead(p: Project, rest: seq<Project>, list: Project -> seq<string>, root: string)
    ensures ListAt([p] + rest, list, root) == if p.root == root then list(p) else ListAt(rest, list, root)
  {
    assert ([p] + rest)[1..] == rest;
  }

  lemma {:induction false} FoldedListAt(ps: seq<Project>, p: Project, list: Project -> seq<string>, root: string)
    requires ListsJoin(list) && Unique(list(p)) == list(p)
    ensures ListAt(Folded(ps, p), list, root) ==
            if p.root == root then Unique(ListAt(ps, list, root) + list(p)) else ListAt(ps, list, root)
  {
    if ps == [] {
      assert [p] + [] == [p] && [] + list(p) == list(p);
      ListAtHead(p, [], list, root);
    } else if ps[0].root == p.root {
      assert JoinsAt(list, ps[0], p);
      ListAtHead(Merge(ps[0], p), ps[1..], list, root);
    } else {
      FoldedListAt(ps[1..], p, list, root);
      ListAtHead(ps[0], Folded(ps[1..], p), list, root);
    }
  }

  lemma {:induction false} ListsAreKept(n: Norms, ps: seq<Project>, list: Project -> seq<string>, root: string)
    requires ListsJoin(list) && ListsCleaned(n, list) && root != ""
    ensures ListAt(Normalized(n, ps), list, root) == Unique(Given(n, ps, list, root))
  {
    if ps != [] {
      var k := |ps| - 1;
      var before, p := ps[..k], Clean(n, ps[k]);
      ListsAreKept(n, before, list, root);
      assert list(p) == Unique(list(ps[k]));
      UniqueTwice(list(ps[k]));
      FoldedListAt(Normalized(n, before), p, list, root);
      UniqueJoined(Given(n, before, list, root), list(ps[k]));
      assert Given(n, before, list, root) + [] == Given(n, before, list, root);
    }
  }

  /** Merging loses no topic and invents none: each root keeps the topics and the pinned
      topics the input lists under any spelling of it, in the order of first appearance. */
  lemma TopicsAreKept(n: Norms, ps: seq<Project>, root: string)
    requires root != ""
    ensures var topics, pinned := (p: Project) => p.topics, (p: Project) => p.pinnedTopics;
            && ListAt(Normalized(n, ps), topics, root) == Unique(Given(n, ps, topics, root))
            && ListAt(Normalized(n, ps), pinned, root) == Unique(Given(n, ps, pinned, root))
  {
    ListsAreKept(n, ps, (p: Project) => p.topics, root);
    ListsAreKept(n, ps, (p: Project) => p.pinnedTopics, root);
  }

  /** A field in which, on merging, the first non-empty value wins: the title, the colour. */
  ghost predicate FirstWins(field: Project -> string) {
    forall a, b :: field(Merge(a, b)) == if field(a) == "" then field(b) else field(a)
  }

  function FieldAt(ps: seq<Project>, field: Project -> string, root: string): string {
    if ps == [] then "" else if ps[0].root == root then field(ps[0]) else FieldAt(ps[1..], field, root)
  }

  /** The first non-empty value the input gives under any spelling of the root. */
  function FirstGiven(n: Norms, ps: seq<Project>, field: Project -> string, root: string): string {
    if ps == [] then ""
    else
      var earlier := FirstGiven(n, ps[..|ps| - 1], field, root);
      var p := Clean(n, ps[|ps| - 1]);
      if earlier == "" && p.root == root then field(p) else earlier
  }

  lemma {:induction false} FoldedFieldAt(ps: seq<Project>, p: Project, field: Project -> string, root: string)
    requires FirstWins(field)
    ensures FieldAt(Folded(ps, p), field, root) ==
            if p.root == root && FieldAt(ps, field, root) == "" then field(p) else FieldAt(ps, field, root)
  {
    if ps == [] {
      assert Folded(ps, p)[1..] == [];
    } else if ps[0].root == p.root {
      assert Folded(ps, p)[1..] == ps[1..];
    } else {
      FoldedFieldAt(ps[1..], p, field, root);
      assert Folded(ps, p)[1..] == Folded(ps[1..], p);
    }
  }

  /** A merged project's title and colour are the first ones given for its root. */
  lemma {:induction false} FirstValueIsKept(n: Norms, ps: seq<Project>, field: Project -> string, root: string)
    requires FirstWins(field) && root != ""
    ensures FieldAt(Normalized(n, ps), field, root) == FirstGiven(n, ps, field, root)
  {
    if ps != [] {
      FirstValueIsKept(n, ps[..|ps| - 1], field, root);
      FoldedFieldAt(Normalized(n, ps[..|ps| - 1]), Clean(n, ps[|ps| - 1]), field, root);
    }
  }

  lemma TitlesAndColoursAreFirst(n: Norms, ps: seq<Project>, root: string)
    requires root != ""
    ensures var title, color := (p: Project) => p.title, (p: Project) => p.color;
            && FieldAt(Normalized(n, ps), title, root) == FirstGiven(n, ps, title, root)
            && FieldAt(Normalized(n, ps), color, root) == FirstGiven(n, ps, color, root)
  {
    FirstValueIsKept(n, ps, (p: Project) => p.title, root);
    FirstValueIsKept(n, ps, (p: Project) => p.color, root);
  }

  // ------------------------------------------------------------------- pins and the order

  function Roots(ps: seq<Project>): set<string> {
    set i | 0 <= i < |ps| :: ps[i].root
  }

  /** Adds the project a pin names, if it is known and its trimmed root is not listed. */
  function AddPin(n: Norms, roots: set<string>, out: seq<string>, value: string): seq<string> {
    var root := n.root(value);
    if root != "" && root in roots && !(Trim(root) != "" && Trim(root) in Unique(out)) then out + [root] else out
  }

  function Pins(n: Norms, roots: set<string>, values: seq<string>): seq<string> {
    AddedAll((out, value) => AddPin(n, roots, out, value), values)
  }

  /** One value added after another. */
  function AddedAll(add: (seq<string>, string) -> seq<string>, values: seq<string>): seq<string> {
    if values == [] then [] else add(AddedAll(add, values[..|values| - 1]), values[|values| - 1])
  }

  /** The sidebar entry an order value names: the global folder or a known project. */
  function OrderKeyOf(n: Norms, roots: set<string>, value: string): Option<string> {
    var trimmed := Trim(value);
    if trimmed == GLOBAL_TOKEN then Some(trimmed)
    else if n.root(trimmed) == "" || n.root(trimmed) !in roots then None
    else Some(n.root(trimmed))
  }

  function NormalizedFile(n: Norms, f: File): File {
    var projects := Normalized(n, f.projects);
    var roots := Roots(projects);
    File(Trim(f.globalTitle), n.color(f.globalColor), Unique(f.globalTopics), Unique(f.globalPinnedTopics),
         Pins(n, roots, Unique(f.pinnedProjects)), Collected(f.sidebarOrder, v => OrderKeyOf(n, roots, v)),
         projects)
  }

  /** Different values by their trimmed forms, none of them blank. */
  predicate DistinctTrims(values: seq<string>) {
    && (forall i :: 0 <= i < |values| ==> Trim(values[i]) != "")
    && (forall i, j :: 0 <= i < j < |values| ==> Trim(values[i]) != Trim(values[j]))
  }

  function Trims(values: seq<string>): (r: seq<string>)
    ensures |r| == |values| && forall i :: 0 <= i < |values| ==> r[i] == Trim(values[i])
  {
    if values == [] then [] else Trims(values[..|values| - 1]) + [Trim(values[|values| - 1])]
  }

  lemma TrimIsNew(values: seq<string>)
    requires DistinctTrims(values) && values != []
    ensures Trim(values[|values| - 1]) !in Trims(values[..|values| - 1])
  {
    var k := |values| - 1;
    assert forall i :: 0 <= i < k ==> Trims(values[..k])[i] == Trim(values[i]);
  }

  lemma {:induction false} UniqueOfTrims(values: seq<string>)
    requires DistinctTrims(values)
    ensures Unique(values) == Trims(values)
  {
    if values != [] {
      UniqueOfTrims(values[..|values| - 1]);
      TrimIsNew(values);
    }
  }

  /** The pins are known roots that differ when trimmed. */
  lemma {:induction false} PinsAreKnown(n: Norms, roots: set<string>, values: seq<string>)
    requires PathLike(n)
    ensures DistinctTrims(Pins(n, roots, values))
    ensures forall x :: x in Pins(n, roots, values) ==> x in roots && x != ""
  {
    if values != [] {
      var before := Pins(n, roots, values[..|values| - 1]);
      var root := n.root(values[|values| - 1]);
      PinsAreKnown(n, roots, values[..|values| - 1]);
      UniqueOfTrims(before);
      assert PathLikeAt(n, values[|values| - 1]);
      if root != "" && root in roots && Trim(root) !in Unique(before) {
        forall i | 0 <= i < |before| ensures Trim(before[i]) != Trim(root) {
          assert Trims(before)[i] in Trims(before);
        }
      }
    }
  }

  lemma {:induction false} AddedOneByOne(add: (seq<string>, string) -> seq<string>, out: seq<string>, values: seq<string>, k: nat)
    requires k <= |values| == |out|
    requires forall i :: 0 <= i < |out| ==> add(out[..i], values[i]) == out[..i] + [out[i]]
    ensures AddedAll(add, values[..k]) == out[..k]
  {
    if k > 0 {
      AddedOneByOne(add, out, values, k - 1);
      assert values[..k][..k - 1] == values[..k - 1];
      assert out[..k] == out[..k - 1] + [out[k - 1]];
    }
  }

  lemma DistinctTrimsPrefix(values: seq<string>, i: nat)
    requires DistinctTrims(values) && i <= |values|
    ensures DistinctTrims(values[..i])
  {}

  /** A settled pin is added again under its trimmed form. */
  lemma PinAddedAgain(n: Norms, roots: set<string>, pins: seq<string>, i: nat)
    requires DistinctTrims(pins) && i < |pins| && PathLikeAt(n, pins[i]) && n.root(pins[i]) == pins[i]
    requires pins[i] in roots && pins[i] != ""
    ensures AddPin(n, roots, pins[..i], Trim(pins[i])) == pins[..i] + [pins[i]]
  {
    DistinctTrimsPrefix(pins, i);
    DistinctTrimsPrefix(pins, i + 1);
    UniqueOfTrims(pins[..i]);
    TrimIsNew(pins[..i + 1]);
    assert pins[..i + 1][..i] == pins[..i] && pins[..i + 1][i] == pins[i];
  }

  lemma PinsTwice(n: Norms, roots: set<string>, values: seq<string>)
    requires PathLike(n) && forall x :: x in roots ==> n.root(x) == x
    ensures Pins(n, roots, Unique(Pins(n, roots, values))) == Pins(n, roots, values)
  {
    var pins := Pins(n, roots, values);
    PinsAreKnown(n, roots, values);
    UniqueOfTrims(pins);
    var add := (out, value) => AddPin(n, roots, out, value);
    forall i | 0 <= i < |pins| ensures add(pins[..i], Trims(pins)[i]) == pins[..i] + [pins[i]] {
      assert pins[i] in pins && PathLikeAt(n, pins[i]);
      PinAddedAgain(n, roots, pins, i);
    }
    AddedOneByOne(add, pins, Trims(pins), |pins|);
    assert Trims(pins)[..|pins|] == Trims(pins) && pins[..|pins|] == pins;
  }

  lemma OrderTwice(n: Norms, roots: set<string>, values: seq<string>)
    requires PathLike(n) && forall x :: x in roots ==> n.root(x) == x
    ensures var f := v => OrderKeyOf(n, roots, v); Collected(Collected(values, f), f) == Collected(values, f)
  {
    var f := v => OrderKeyOf(n, roots, v);
    forall v, x | f(v) == Some(x) ensures f(x) == Some(x) {
      TrimIsTrimmed(v);
      TrimmedStays(Trim(v));
      assert PathLikeAt(n, x);
    }
    CollectedTwice(values, f);
  }

  /** Normalising a normalised file changes nothing, exactly when normalising the listed
      roots once more would not change them. */
  lemma NormalizingTwice(n: Norms, f: File)
    requires PathLike(n) && ColorsSettle(n)
    ensures NormalizedFile(n, NormalizedFile(n, f)) == NormalizedFile(n, f) <==> RootsSettle(n, f.projects)
  {
    SettledRoots(n, f.projects);
    NormalizedTwiceExactly(n, f.projects);
    if RootsSettle(n, f.projects) {
      SettledFileStays(n, f);
    }
  }

  lemma SettledFileStays(n: Norms, f: File)
    requires PathLike(n) && ColorsSettle(n) && RootsSettle(n, f.projects)
    ensures NormalizedFile(n, NormalizedFile(n, f)) == NormalizedFile(n, f)
  {
    var projects := Normalized(n, f.projects);
    var roots := Roots(projects);
    SettledRoots(n, f.projects);
    NormalizedTwiceExactly(n, f.projects);
    assert forall x :: x in roots ==> n.root(x) == x;
    TrimIsTrimmed(f.globalTitle);
    TrimmedStays(Trim(f.globalTitle));
    assert ColorSettlesAt(n, f.globalColor);
    UniqueTwice(f.globalTopics);
    UniqueTwice(f.globalPinnedTopics);
    PinsTwice(n, roots, Unique(f.pinnedProjects));
    OrderTwice(n, roots, f.sidebarOrder);
  }

  /** A project at a path that ends in a space before its slash: cleaning the path leaves
      the space, and normalising again trims it off. */
  lemma UnsettledRoot(n: Norms, p: Project, f: File)
    requires n.root("/a /") == "/a " && n.root("/a ") == "/a"
    requires p.root == "/a /" && f.projects == [p]
    ensures HasRoot(NormalizedFile(n, f).projects, "/a ") && !HasRoot(NormalizedFile(n, NormalizedFile(n, f)).projects, "/a ")
  {
    var q := Clean(n, p);
    assert f.projects[..0] == [] && Normalized(n, f.projects) == [q];
    assert [q][..0] == [] && Normalized(n, [q]) == [Clean(n, q)];
    assert [q][0].root == "/a ";
  }

  /** Pins and the sidebar order have no repeats and name only known projects, or the
      global folder. */
  lemma NamesAreKnown(n: Norms, f: File)
    requires PathLike(n)
    ensures var g := NormalizedFile(n, f);
            && DistinctTrims(g.pinnedProjects) && Distinct(g.sidebarOrder)
            && (forall x :: x in g.pinnedProjects ==> HasRoot(g.projects, x))
            && (forall x :: x in g.sidebarOrder ==> x == GLOBAL_TOKEN || HasRoot(g.projects, x))
  {
    var g := NormalizedFile(n, f);
    var roots := Roots(g.projects);
    var key := v => OrderKeyOf(n, roots, v);
    PinsAreKnown(n, roots, Unique(f.pinnedProjects));
    CollectedMembers(f.sidebarOrder, key);
    assert g.sidebarOrder == Collected(f.sidebarOrder, key);
    forall x | Names(f.sidebarOrder, key, x) ensures x == GLOBAL_TOKEN || x in roots {
    }
  }

  // ------------------------------------------------------------------------ what is kept

  function RootsOf(ps: seq<Project>): (r: seq<string>)
    ensures |r| == |ps| && forall i :: 0 <= i < |ps| ==> r[i] == ps[i].root
  {
    if ps == [] then [] else RootsOf(ps[..|ps| - 1]) + [ps[|ps| - 1].root]
  }

  lemma RootsOfHas(ps: seq<Project>, root: string)
    ensures root in RootsOf(ps) <==> HasRoot(ps, root)
  {
    if i :| 0 <= i < |ps| && ps[i].root == root {
      assert RootsOf(ps)[i] == root;
    }
  }

  lemma FoldedRoots(ps: seq<Project>, p: Project)
    requires DistinctRoots(ps)
    ensures RootsOf(Folded(ps, p)) == if HasRoot(ps, p.root) then RootsOf(ps) else RootsOf(ps) + [p.root]
  {
    FoldedAt(ps, p);
  }

  /** The roots come out in the order in which some spelling of each first appears. */
  lemma {:induction false} RootsAreFirsts(n: Norms, ps: seq<Project>, says: Project -> Option<string>)
    requires forall p {:trigger says(p)} :: says(p) == if n.root(p.root) == "" then None else Some(n.root(p.root))
    ensures FirstsOf(ps, says, Same, RootsOf(Normalized(n, ps)))
  {
    if ps == [] {
      assert FirstPlaces(ps, says, Same, [], []);
    } else {
      var k := |ps| - 1;
      var before, p := Normalized(n, ps[..k]), Clean(n, ps[k]);
      RootsAreFirsts(n, ps[..k], says);
      NormalizedRootsDiffer(n, ps[..k]);
      FoldedRoots(before, p);
      RootsOfHas(before, p.root);
      FirstsNext(ps, says, Same, RootsOf(before), RootsOf(Normalized(n, ps)));
    }
  }

  lemma NextPin(n: Norms, roots: set<string>, values: seq<string>, value: string)
    ensures Pins(n, roots, values + [value]) == AddPin(n, roots, Pins(n, roots, values), value)
  {
    assert (values + [value])[..|values|] == values;
  }

  lemma InUnique(values: seq<string>, x: string)
    requires x != ""
    ensures x in Unique(values) <==> exists v :: v in values && Trim(v) == x
  {
    CollectedMembers(values, NonEmptyTrim);
    if v :| v in values && Trim(v) == x {
      var i :| 0 <= i < |values| && values[i] == v;
      assert NonEmptyTrim(values[i]) == Some(x);
    }
  }

  /** Whether a pin is added to those before it. */
  lemma PinAddedExactly(n: Norms, roots: set<string>, out: seq<string>, value: string)
    requires PathLike(n)
    ensures AddPin(n, roots, out, value) ==
            var root := n.root(value);
            if root == "" || root !in roots || exists y :: y in out && Trim(y) == Trim(root) then out else out + [root]
  {
    assert PathLikeAt(n, value);
    if Trim(n.root(value)) != "" {
      InUnique(out, Trim(n.root(value)));
    }
  }

  /** The pins are the known projects the pins given name, the first of those alike up to
      surrounding space. */
  lemma {:induction false} PinsAreFirsts(n: Norms, roots: set<string>, values: seq<string>, says: string -> Option<string>)
    requires PathLike(n)
    requires forall v :: says(v) == var root := n.root(Trim(v)); if root == "" || root !in roots then None else Some(root)
    ensures FirstsOf(values, says, Trim, Pins(n, roots, Unique(values)))
  {
    if values == [] {
      assert FirstPlaces(values, says, Trim, [], []);
    } else {
      var k := |values| - 1;
      PinsAreFirsts(n, roots, values[..k], says);
      NextPinIsFirst(n, roots, values, says);
    }
  }

  lemma NextPinIsFirst(n: Norms, roots: set<string>, values: seq<string>, says: string -> Option<string>)
    requires PathLike(n) && values != []
    requires forall v :: says(v) == var root := n.root(Trim(v)); if root == "" || root !in roots then None else Some(root)
    requires FirstsOf(values[..|values| - 1], says, Trim, Pins(n, roots, Unique(values[..|values| - 1])))
    ensures FirstsOf(values, says, Trim, Pins(n, roots, Unique(values)))
  {
    var k := |values| - 1;
    var before, x := Unique(values[..k]), Trim(values[k]);
    var pins := Pins(n, roots, before);
    if x == "" {
      TrimmedStays("");
      assert PathLikeAt(n, "");
    } else if x in before {
      InUnique(values[..k], x);
      FirstsHold(values[..k], says, Trim, pins);
    } else {
      NextPin(n, roots, before, x);
      PinAddedExactly(n, roots, pins, x);
    }
    FirstsNext(values, says, Trim, pins, Pins(n, roots, Unique(values)));
  }

  /** What normalising keeps of a file: the global title and colour, all topics, a project for
      every root, and every pin and place in the order that names a project or the global
      folder, in the order of first appearance. */
  ghost predicate Keeps(n: Norms, f: File, g: File) {
    var trimmed := v => if Trim(v) == "" then None else Some(Trim(v));
    var known := v => if n.root(Trim(v)) != "" && HasRoot(g.projects, n.root(Trim(v))) then Some(n.root(Trim(v))) else None;
    && g.globalTitle == Trim(f.globalTitle) && g.globalColor == n.color(f.globalColor)
    && FirstsOf(f.globalTopics, trimmed, Same, g.globalTopics)
    && FirstsOf(f.globalPinnedTopics, trimmed, Same, g.globalPinnedTopics)
    && FirstsOf(f.projects, (p: Project) => if n.root(p.root) == "" then None else Some(n.root(p.root)), Same, RootsOf(g.projects))
    && FirstsOf(f.pinnedProjects, known, Trim, g.pinnedProjects)
    && FirstsOf(f.sidebarOrder, v => if Trim(v) == GLOBAL_TOKEN then Some(GLOBAL_TOKEN) else known(v), Same, g.sidebarOrder)
  }

  lemma RootsHave(ps: seq<Project>, root: string)
    ensures root in Roots(ps) <==> HasRoot(ps, root)
  {}

  lemma OrderIsFirsts(n: Norms, ps: seq<Project>, order: seq<string>, says: string -> Option<string>)
    requires forall v :: says(v) ==
                         if Trim(v) == GLOBAL_TOKEN then Some(GLOBAL_TOKEN)
                         else if n.root(Trim(v)) != "" && HasRoot(ps, n.root(Trim(v))) then Some(n.root(Trim(v)))
                         else None
    ensures FirstsOf(order, says, Same, Collected(order, v => OrderKeyOf(n, Roots(ps), v)))
  {
    var key := v => OrderKeyOf(n, Roots(ps), v);
    forall v ensures key(v) == says(v) {
      RootsHave(ps, n.root(Trim(v)));
    }
    CollectedFirsts(order, key, says);
  }

  lemma FileIsKept(n: Norms, f: File)
    requires PathLike(n)
    ensures Keeps(n, f, NormalizedFile(n, f))
  {
    var g := NormalizedFile(n, f);
    var known := v => if n.root(Trim(v)) != "" && HasRoot(g.projects, n.root(Trim(v))) then Some(n.root(Trim(v))) else None;
    UniqueIsFirsts(f.globalTopics);
    UniqueIsFirsts(f.globalPinnedTopics);
    RootsAreFirsts(n, f.projects, (p: Project) => if n.root(p.root) == "" then None else Some(n.root(p.root)));
    PinsAreFirsts(n, Roots(g.projects), f.pinnedProjects, known) by {
      forall v ensures n.root(Trim(v)) in Roots(g.projects) <==> HasRoot(g.projects, n.root(Trim(v))) {
        RootsHave(g.projects, n.root(Trim(v)));
      }
    }
    OrderIsFirsts(n, g.projects, f.sidebarOrder, v => if Trim(v) == GLOBAL_TOKEN then Some(GLOBAL_TOKEN) else known(v));
  }

  /** So a name is in the sidebar order if and only if it is the token and some entry trims to
      it, or some other entry names a known project by it. */
  lemma OrderHasExactly(n: Norms, f: File, x: string)
    requires PathLike(n)
    ensures var g := NormalizedFile(n, f);
            x in g.sidebarOrder <==>
            exists v :: v in f.sidebarOrder &&
              if Trim(v) == GLOBAL_TOKEN then x == GLOBAL_TOKEN else x != "" && n.root(Trim(v)) == x && HasRoot(g.projects, x)
  {
    var g := NormalizedFile(n, f);
    var roots := Roots(g.projects);
    var key := v => OrderKeyOf(n, roots, v);
    CollectedMembers(f.sidebarOrder, key);
    RootsHave(g.projects, x);
    if v :| v in f.sidebarOrder && key(v) == Some(x) {
      var i :| 0 <= i < |f.sidebarOrder| && f.sidebarOrder[i] == v;
      assert key(f.sidebarOrder[i]) == Some(x);
    }
  }

  // ------------------------------------------------------------------------- the loops

  /** The map holds the place of every root. */
  ghost predicate Indexes(index: map<string, nat>, ps: seq<Project>) {
    && (forall root :: (root in index) <==> HasRoot(ps, root))
    && (forall root :: root in index ==> index[root] < |ps| && ps[index[root]].root == root)
  }

  lemma FoldedInPlace(ps: seq<Project>, p: Project, i: nat)
    requires DistinctRoots(ps) && i < |ps| && ps[i].root == p.root
    ensures Folded(ps, p) == ps[i := Merge(ps[i], p)]
  {
    FoldedAt(ps, p);
    assert HasRoot(ps, p.root);
    forall k | 0 <= k < |ps| && k != i ensures ps[k].root != p.root {}
  }

  lemma IndexesAppended(index: map<string, nat>, ps: seq<Project>, p: Project)
    requires Indexes(index, ps) && p.root !in index
    ensures Indexes(index[p.root := |ps|], ps + [p])
  {
    AddedRoot(ps, p);
  }

  method FoldIn(ps: seq<Project>, index: map<string, nat>, p: Project) returns (out: seq<Project>, next: map<string, nat>)
    requires DistinctRoots(ps) && Indexes(index, ps)
    ensures out == Folded(ps, p) && Indexes(next, out)
  {
    if p.root in index {
      var i := index[p.root];
      out, next := ps[i := Merge(ps[i], p)], index;
      FoldedInPlace(ps, p, i);
      SameRoots(ps, out);
    } else {
      out, next := ps + [p], index[p.root := |ps|];
      FoldedNew(ps, p);
      IndexesAppended(index, ps, p);
    }
  }

  /** Merges the projects in one pass, keeping the place of each root in a map. */
  method NormalizeProjects(n: Norms, ps: seq<Project>) returns (out: seq<Project>)
    ensures out == Normalized(n, ps)
  {
    var index: map<string, nat> := map[];
    out := [];
    var k := 0;
    while k < |ps|
      invariant 0 <= k <= |ps| && out == Normalized(n, ps[..k]) && DistinctRoots(out) && Indexes(index, out)
    {
      assert ps[..k + 1][..k] == ps[..k];
      NormalizedRootsDiffer(n, ps[..k + 1]);
      var p := Clean(n, ps[k]);
      if p.root != "" {
        out, index := FoldIn(out, index, p);
      }
      k := k + 1;
    }
    assert ps[..k] == ps;
  }

  lemma SameRoots(a: seq<Project>, b: seq<Project>)
    requires |a| == |b| && forall i :: 0 <= i < |a| ==> a[i].root == b[i].root
    ensures forall r :: HasRoot(a, r) <==> HasRoot(b, r)
  {
    forall r ensures HasRoot(a, r) <==> HasRoot(b, r) {
      if i :| 0 <= i < |a| && a[i].root == r {
        assert b[i].root == r;
      }
      if i :| 0 <= i < |b| && b[i].root == r {
        assert a[i].root == r;
      }
    }
  }

  lemma AddedRoot(ps: seq<Project>, p: Project)
    ensures forall r :: HasRoot(ps + [p], r) <==> HasRoot(ps, r) || r == p.root
  {
    var out := ps + [p];
    assert out[|ps|] == p;
    forall r | HasRoot(ps, r) ensures HasRoot(out, r) {
      var i :| 0 <= i < |ps| && ps[i].root == r;
      assert out[i].root == r;
    }
  }

  /** The pins that name a known project, as the source filters and looks them up. */
  method NormalizePins(n: Norms, roots: set<string>, pins: seq<string>) returns (out: seq<string>)
    ensures out == Pins(n, roots, Unique(pins))
  {
    var unique := UniqueStrings(pins);
    out := [];
    var i := 0;
    while i < |unique|
      invariant 0 <= i <= |unique| && out == Pins(n, roots, unique[..i])
    {
      assert unique[..i + 1][..i] == unique[..i];
      var root := n.root(unique[i]);
      if root != "" && root in roots {
        var listed := ContainsString(out, root);
        if !listed {
          out := out + [root];
        }
      }
      i := i + 1;
    }
    assert unique[..i] == unique;
  }

  method NormalizeSidebarOrder(n: Norms, roots: set<string>, order: seq<string>) returns (out: seq<string>)
    ensures out == Collected(order, v => OrderKeyOf(n, roots, v))
  {
    ghost var key := v => OrderKeyOf(n, roots, v);
    var seen: set<string> := {};
    out := [];
    var i := 0;
    while i < |order|
      invariant 0 <= i <= |order| && out == Collected(order[..i], key)
      invariant forall x :: (x in seen) <==> (x in out)
    {
      assert order[..i + 1][..i] == order[..i];
      assert Collected(order[..i + 1], key) == Extend(out, OrderKeyOf(n, roots, order[i]));
      var value := Trim(order[i]);
      if value == GLOBAL_TOKEN {
        if value !in seen {
          seen := seen + {value};
          out := out + [value];
        }
      } else {
        var root := n.root(value);
        if !(root == "" || root !in roots || root in seen) {
          seen := seen + {root};
          out := out + [root];
        }
      }
      i := i + 1;
    }
    assert order[..i] == order;
  }

  method NormalizeProjectsFile(n: Norms, f: File) returns (out: File)
    ensures out == NormalizedFile(n, f)
    ensures PathLike(n) ==> Keeps(n, f, out)
  {
    var topics := UniqueStrings(f.globalTopics);
    var pinned := UniqueStrings(f.globalPinnedTopics);
    var projects := NormalizeProjects(n, f.projects);
    var roots := Roots(projects);
    var pins := NormalizePins(n, roots, f.pinnedProjects);
    var order := NormalizeSidebarOrder(n, roots, f.sidebarOrder);
    out := File(Trim(f.globalTitle), n.color(f.globalColor), topics, pinned, pins, order, projects);
    if PathLike(n) {
      FileIsKept(n, f);
    }
  }
}
