/** Comparison of ledger hashes across nodes (xrplsim/oracle.go). */
module Oracle {
  import opened Wrappers
  import opened Text
  import opened Selections

  /** A node, whether it validated the ledger in time, and the hash it serves unless fetching fails. */
  datatype Node = Node(name: string, ready: bool, fetched: Option<string>)

  datatype Divergence = Divergence(refName: string, refHash: string, name: string, hash: string)

  datatype Comparison = Comparison(sequence: int, agreed: bool, nodeHashes: map<string, string>,
                                   divergences: seq<Divergence>, errors: seq<string>)

  datatype Outcome = Compared(c: Comparison) | NotValidated(name: string)

  /** The hash last served under each name. */
  function Served(nodes: seq<Node>): map<string, string> {
    if nodes == [] then map[]
    else
      var before, node := Served(nodes[..|nodes| - 1]), nodes[|nodes| - 1];
      if node.fetched.Some? then before[node.name := node.fetched.value] else before
  }

  function FetchErrors(nodes: seq<Node>): seq<string> {
    if nodes == [] then []
    else
      var node := nodes[|nodes| - 1];
      FetchErrors(nodes[..|nodes| - 1]) + if node.fetched.Some? then [] else [node.name]
  }

  /** One iteration order of a map. */
  ghost predicate IsOrder(order: seq<string>, hashes: map<string, string>) {
    && (forall name :: name in order <==> name in hashes)
    && forall i, j | 0 <= i < j < |order| :: order[i] != order[j]
  }

  datatype Scan = Scan(refName: string, refHash: string, divergences: seq<Divergence>)

  function ScanStep(s: Scan, name: string, hash: string): Scan {
    if s.refName == "" then Scan(name, hash, s.divergences)
    else if hash != s.refHash then s.(divergences := s.divergences + [Divergence(s.refName, s.refHash, name, hash)])
    else s
  }

  function ScanAll(order: seq<string>, hashes: map<string, string>): Scan
    requires forall name | name in order :: name in hashes
  {
    if order == [] then Scan("", "", [])
    else
      var name := order[|order| - 1];
      ScanStep(ScanAll(order[..|order| - 1], hashes), name, hashes[name])
  }

  /** The divergences reported when the served hashes are visited in an order. */
  function Divergences(order: seq<string>, hashes: map<string, string>): seq<Divergence>
    requires forall name | name in order :: name in hashes
  {
    if |hashes| < 2 then [] else ScanAll(order, hashes).divergences
  }

  method CompareAtSequence(nodes: seq<Node>, sequence: int) returns (r: Outcome)
    ensures r.Compared? <==> forall i | 0 <= i < |nodes| :: nodes[i].ready
    ensures r.NotValidated? ==> exists i :: 0 <= i < |nodes| && !nodes[i].ready && nodes[i].name == r.name
                                            && forall j | 0 <= j < i :: nodes[j].ready
    ensures r.Compared? ==> r.c.sequence == sequence && r.c.nodeHashes == Served(nodes) && r.c.errors == FetchErrors(nodes)
    ensures r.Compared? ==> (r.c.agreed <==> r.c.errors == [] && r.c.divergences == [])
    ensures r.Compared? ==> exists order :: IsOrder(order, Served(nodes)) && r.c.divergences == Divergences(order, Served(nodes))
  {
    for i := 0 to |nodes|
      invariant forall j | 0 <= j < i :: nodes[j].ready
    {
      if !nodes[i].ready {
        return NotValidated(nodes[i].name);
      }
    }
    var c := Fetch(nodes, sequence);
    c := CompareHashes(c);
    r := Compared(c);
  }

  method Fetch(nodes: seq<Node>, sequence: int) returns (c: Comparison)
    ensures c == Comparison(sequence, FetchErrors(nodes) == [], Served(nodes), [], FetchErrors(nodes))
  {
    c := Comparison(sequence, true, map[], [], []);
    for i := 0 to |nodes|
      invariant c == Comparison(sequence, FetchErrors(nodes[..i]) == [], Served(nodes[..i]), [], FetchErrors(nodes[..i]))
    {
      var node := nodes[i];
      assert nodes[..i + 1][..i] == nodes[..i];
      if node.fetched.None? {
        c := c.(errors := c.errors + [node.name], agreed := false);
        continue;
      }
      c := c.(nodeHashes := c.nodeHashes[node.name := node.fetched.value]);
    }
    assert nodes[..|nodes|] == nodes;
  }

  /** The iteration over the map meets the names in any order. */
  method CompareHashes(c: Comparison) returns (r: Comparison)
    requires c.divergences == []
    ensures r == c.(agreed := c.agreed && r.divergences == [], divergences := r.divergences)
    ensures exists order :: IsOrder(order, c.nodeHashes) && r.divergences == Divergences(order, c.nodeHashes)
  {
    var hashes := c.nodeHashes;
    if |hashes| < 2 {
      AnOrder(hashes);
      return c;
    }
    r := c;
    var refName, refHash := "", "";
    var left := hashes.Keys;
    ghost var order: seq<string> := [];
    while left != {}
      invariant left <= hashes.Keys
      invariant forall name :: name in order <==> name in hashes && name !in left
      invariant forall i, j | 0 <= i < j < |order| :: order[i] != order[j]
      invariant ScanAll(order, hashes) == Scan(refName, refHash, r.divergences)
      invariant r == c.(agreed := c.agreed && r.divergences == [], divergences := r.divergences)
    {
      var name :| name in left;
      left := left - {name};
      assert (order + [name])[..|order|] == order;
      order := order + [name];
      if refName == "" {
        refName, refHash := name, hashes[name];
        continue;
      }
      if hashes[name] != refHash {
        r := r.(agreed := false, divergences := r.divergences + [Divergence(refName, refHash, name, hashes[name])]);
      }
    }
    assert IsOrder(order, hashes);
  }

  lemma AnOrder(hashes: map<string, string>)
    ensures IsOrder(Sorted(hashes.Keys), hashes)
  {
    SortedIsSorted(hashes.Keys);
  }

  // The verdict

  /** Two nodes served different hashes. */
  predicate Disagree(nodes: seq<Node>) {
    exists i, j :: 0 <= i < |nodes| && 0 <= j < |nodes| && nodes[i].fetched.Some? && nodes[j].fetched.Some? && nodes[i].fetched != nodes[j].fetched
  }

  predicate AllServed(nodes: seq<Node>) { forall i | 0 <= i < |nodes| :: nodes[i].fetched.Some? }

  predicate DistinctNames(nodes: seq<Node>) { forall i, j | 0 <= i < j < |nodes| :: nodes[i].name != nodes[j].name }

  lemma {:induction false} ErrorsExactly(nodes: seq<Node>)
    ensures FetchErrors(nodes) == [] <==> AllServed(nodes)
  {
    if nodes != [] {
      ErrorsExactly(nodes[..|nodes| - 1]);
    }
  }

  predicate ServedLast(nodes: seq<Node>, i: nat, name: string, hash: string) {
    && i < |nodes| && nodes[i].name == name && nodes[i].fetched == Some(hash)
    && forall j | i < j < |nodes| && nodes[j].name == name :: nodes[j].fetched.None?
  }

  /** The hash on record for a name is the last one served under it. */
  lemma {:induction false} ServedExactly(nodes: seq<Node>)
    ensures forall i | 0 <= i < |nodes| && nodes[i].fetched.Some? :: nodes[i].name in Served(nodes)
    ensures forall name | name in Served(nodes) :: exists i: nat :: ServedLast(nodes, i, name, Served(nodes)[name])
  {
    if nodes != [] {
      var front, last := nodes[..|nodes| - 1], nodes[|nodes| - 1];
      ServedExactly(front);
      forall name | name in Served(nodes) ensures exists i: nat :: ServedLast(nodes, i, name, Served(nodes)[name]) {
        if last.name == name && last.fetched.Some? {
          assert ServedLast(nodes, |nodes| - 1, name, Served(nodes)[name]);
        } else {
          var i: nat :| ServedLast(front, i, name, Served(front)[name]);
          assert ServedLast(nodes, i, name, Served(nodes)[name]);
        }
      }
    }
  }

  /** With the first name as reference, divergences are found exactly if some hash differs from its. */
  lemma {:induction false} ScanFinds(order: seq<string>, hashes: map<string, string>)
    requires order != [] && (forall name | name in order :: name in hashes && name != "")
    ensures var s := ScanAll(order, hashes);
      && s.refName == order[0] && s.refHash == hashes[order[0]]
      && (s.divergences == [] <==> forall i | 0 <= i < |order| :: hashes[order[i]] == hashes[order[0]])
  {
    if |order| > 1 {
      var front := order[..|order| - 1];
      ScanFinds(front, hashes);
      assert forall i | 0 <= i < |front| :: front[i] == order[i];
    }
  }

  predicate DiffersAt(order: seq<string>, hashes: map<string, string>, k: nat) {
    k < |order| && order[0] in hashes && order[k] in hashes && hashes[order[k]] != hashes[order[0]]
  }

  function Differing(order: seq<string>, hashes: map<string, string>): nat -> bool { (k: nat) => DiffersAt(order, hashes, k) }

  /** One record for each pick, with the reference and its hash, and the other name with its own. */
  predicate Records(order: seq<string>, hashes: map<string, string>, picks: seq<nat>, found: seq<Divergence>) {
    |found| == |picks| && forall a | 0 <= a < |picks| ::
      && picks[a] < |order| && order[0] in hashes && order[picks[a]] in hashes
      && found[a] == Divergence(order[0], hashes[order[0]], order[picks[a]], hashes[order[picks[a]]])
  }

  lemma OneMoreRecord(order: seq<string>, hashes: map<string, string>, picks: seq<nat>, found: seq<Divergence>, n: nat)
    requires Records(order, hashes, picks, found) && DiffersAt(order, hashes, n)
    ensures Records(order, hashes, picks + [n], found + [Divergence(order[0], hashes[order[0]], order[n], hashes[order[n]])])
  {
  }

  /** With non-empty names the first one visited is the reference, and each later one adds its record if its hash
      is another. */
  lemma ScanFurther(order: seq<string>, hashes: map<string, string>, n: nat)
    requires 0 < n < |order| && forall name | name in order :: name in hashes && name != ""
    ensures ScanAll(order[..n + 1], hashes).divergences == ScanAll(order[..n], hashes).divergences
      + if DiffersAt(order, hashes, n) then [Divergence(order[0], hashes[order[0]], order[n], hashes[order[n]])] else []
  {
    assert order[..n + 1][..n] == order[..n];
    ScanFinds(order[..n], hashes);
  }

  lemma FirstVisited(order: seq<string>, hashes: map<string, string>)
    requires order != [] && forall name | name in order :: name in hashes && name != ""
    ensures ScanAll(order[..1], hashes).divergences == []
  {
    assert order[..1] == [order[0]];
    ScanFinds([order[0]], hashes);
  }

  lemma {:induction false} ScanRecords(order: seq<string>, hashes: map<string, string>, n: nat) returns (picks: seq<nat>)
    requires 0 < n <= |order| && forall name | name in order :: name in hashes && name != ""
    ensures Picks(picks, n, Differing(order, hashes)) && Records(order, hashes, picks, ScanAll(order[..n], hashes).divergences)
  {
    picks := [];
    if n == 1 {
      FirstVisited(order, hashes);
    } else {
      picks := ScanRecords(order, hashes, n - 1);
      PicksFurther(picks, n - 1, Differing(order, hashes));
      ScanFurther(order, hashes, n - 1);
      if DiffersAt(order, hashes, n - 1) {
        OneMoreRecord(order, hashes, picks, ScanAll(order[..n - 1], hashes).divergences, n - 1);
        picks := picks + [n - 1];
      }
    }
  }

  /** When no name is empty, the report has one record for each name whose hash differs from that of the first one
      visited, in the order of the visits, with both names and the hashes on record for them. */
  lemma DivergencesListed(order: seq<string>, hashes: map<string, string>) returns (picks: seq<nat>)
    requires order != [] && |hashes| >= 2 && forall name | name in order :: name in hashes && name != ""
    ensures Picks(picks, |order|, (k: nat) => k < |order| && order[k] in hashes && order[0] in hashes && hashes[order[k]] != hashes[order[0]])
    ensures Records(order, hashes, picks, Divergences(order, hashes))
  {
    picks := ScanRecords(order, hashes, |order|);
    assert order[..|order|] == order;
    assert forall k: nat :: Differing(order, hashes)(k) <==>
      k < |order| && order[k] in hashes && order[0] in hashes && hashes[order[k]] != hashes[order[0]];
  }

  predicate FailedAt(nodes: seq<Node>, k: nat) { k < |nodes| && nodes[k].fetched.None? }

  function Failing(nodes: seq<Node>): nat -> bool { (k: nat) => FailedAt(nodes, k) }

  /** The errors name exactly the nodes from which nothing could be fetched, in order. */
  lemma {:induction false} ErrorsListed(nodes: seq<Node>, n: nat) returns (picks: seq<nat>)
    requires n <= |nodes|
    ensures Picks(picks, n, Failing(nodes)) && |FetchErrors(nodes[..n])| == |picks|
    ensures forall a | 0 <= a < |picks| :: picks[a] < |nodes| && FetchErrors(nodes[..n])[a] == nodes[picks[a]].name
  {
    picks := [];
    if n > 0 {
      picks := ErrorsListed(nodes, n - 1);
      assert nodes[..n][..n - 1] == nodes[..n - 1];
      PicksFurther(picks, n - 1, Failing(nodes));
      if FailedAt(nodes, n - 1) {
        picks := picks + [n - 1];
      }
    }
  }

  /** The report is right: divergences exactly if two nodes disagree. */
  ghost predicate Right(nodes: seq<Node>, order: seq<string>) {
    IsOrder(order, Served(nodes)) ==> (Divergences(order, Served(nodes)) != [] <==> Disagree(nodes))
  }

  ghost predicate NamesFit(names: seq<string>) {
    && (forall i, j | 0 <= i < j < |names| :: names[i] != names[j])
    && ("" in names ==> |names| == 1)
  }

  function Serving(names: seq<string>, fetched: seq<Option<string>>): seq<Node>
    requires |fetched| == |names|
  {
    seq(|names|, i requires 0 <= i < |names| => Node(names[i], true, fetched[i]))
  }

  lemma {:induction false} ScanIsSound(order: seq<string>, hashes: map<string, string>)
    requires forall name | name in order :: name in hashes
    ensures var s := ScanAll(order, hashes);
      && (s.refName != "" ==> s.refName in hashes && s.refHash == hashes[s.refName])
      && (s.divergences != [] ==> exists x, y :: x in hashes && y in hashes && hashes[x] != hashes[y])
  {
    if order != [] {
      ScanIsSound(order[..|order| - 1], hashes);
    }
  }

  /** For any names, what is reported is a disagreement. */
  lemma DivergencesAreReal(nodes: seq<Node>, order: seq<string>)
    requires IsOrder(order, Served(nodes)) && Divergences(order, Served(nodes)) != []
    ensures Disagree(nodes)
  {
    var hashes := Served(nodes);
    ScanIsSound(order, hashes);
    ServedExactly(nodes);
    var x, y :| x in hashes && y in hashes && hashes[x] != hashes[y];
    var i: nat :| ServedLast(nodes, i, x, hashes[x]);
    var j: nat :| ServedLast(nodes, j, y, hashes[y]);
  }

  lemma DisagreementIsReported(nodes: seq<Node>, order: seq<string>)
    requires DistinctNames(nodes) && forall i | 0 <= i < |nodes| :: nodes[i].name != ""
    requires IsOrder(order, Served(nodes)) && Disagree(nodes)
    ensures Divergences(order, Served(nodes)) != []
  {
    var i, j :| 0 <= i < |nodes| && 0 <= j < |nodes| && nodes[i].fetched.Some? && nodes[j].fetched.Some? && nodes[i].fetched != nodes[j].fetched;
    OnRecord(nodes, i);
    OnRecord(nodes, j);
    NamesNotEmpty(nodes, order);
    DifferenceIsFound(order, Served(nodes), nodes[i].name, nodes[j].name);
  }

  lemma DifferenceIsFound(order: seq<string>, hashes: map<string, string>, x: string, y: string)
    requires IsOrder(order, hashes) && forall name | name in order :: name != ""
    requires x in hashes && y in hashes && hashes[x] != hashes[y]
    ensures Divergences(order, hashes) != []
  {
    TwoMembers(x, y, hashes.Keys);
    assert x in order && y in order;
    ScanFinds(order, hashes);
  }

  lemma OnRecord(nodes: seq<Node>, i: nat)
    requires DistinctNames(nodes) && i < |nodes| && nodes[i].fetched.Some?
    ensures nodes[i].name in Served(nodes) && Served(nodes)[nodes[i].name] == nodes[i].fetched.value
  {
    ServedExactly(nodes);
    var name := nodes[i].name;
    var k: nat :| ServedLast(nodes, k, name, Served(nodes)[name]);
  }

  lemma NamesNotEmpty(nodes: seq<Node>, order: seq<string>)
    requires IsOrder(order, Served(nodes)) && forall i | 0 <= i < |nodes| :: nodes[i].name != ""
    ensures forall name | name in order :: name != ""
  {
    ServedExactly(nodes);
    forall name | name in order ensures name != "" {
      var k: nat :| ServedLast(nodes, k, name, Served(nodes)[name]);
    }
  }

  lemma TwoMembers<A>(x: A, y: A, s: set<A>)
    requires x in s && y in s && x != y
    ensures |s| >= 2
  {
    assert s == {x} + ({y} + (s - {x, y}));
  }

  lemma RightIfNamesFit(names: seq<string>, fetched: seq<Option<string>>, order: seq<string>)
    requires |fetched| == |names| && NamesFit(names)
    ensures Right(Serving(names, fetched), order)
  {
    var nodes := Serving(names, fetched);
    if IsOrder(order, Served(nodes)) {
      if Divergences(order, Served(nodes)) != [] {
        DivergencesAreReal(nodes, order);
      }
      if Disagree(nodes) {
        DisagreementIsReported(nodes, order);
      }
    }
  }

  /** If all hashes but that of a leading empty name are the same, no divergence is found. */
  lemma {:induction false} ScanIsQuiet(order: seq<string>, hashes: map<string, string>)
    requires forall i | 0 <= i < |order| :: order[i] in hashes && (hashes[order[i]] == "b" || (i == 0 && order[i] == ""))
    ensures var s := ScanAll(order, hashes); s.divergences == [] && (s.refName == "" || s.refHash == "b")
  {
    if order != [] {
      ScanIsQuiet(order[..|order| - 1], hashes);
    }
  }

  /** All nodes serve "b", except one that serves "a". */
  function OneOff(n: nat, i: nat): seq<Option<string>> {
    seq(n, k => Some(if k == i then "a" else "b"))
  }

  lemma OneOffHash(names: seq<string>, i: nat, name: string)
    requires i < |names| && ((exists j :: i < j < |names| && names[j] == names[i]) || names[i] == "")
    requires name in Served(Serving(names, OneOff(|names|, i)))
    ensures Served(Serving(names, OneOff(|names|, i)))[name] == "b" || name == ""
  {
    var nodes := Serving(names, OneOff(|names|, i));
    ServedExactly(nodes);
    var k: nat :| ServedLast(nodes, k, name, Served(nodes)[name]);
    assert nodes[k].fetched == Some(if k == i then "a" else "b");
    assert forall j | i < j < |names| :: names[j] == nodes[j].name && nodes[j].fetched == Some("b");
  }

  lemma OneOffDisagrees(names: seq<string>, i: nat)
    requires i < |names| && |names| >= 2
    ensures Disagree(Serving(names, OneOff(|names|, i)))
  {
    var nodes := Serving(names, OneOff(|names|, i));
    var other := if i == 0 then 1 else 0;
    assert nodes[i].fetched == Some("a") && nodes[other].fetched == Some("b");
  }

  lemma WrongForOneOff(names: seq<string>, i: nat)
    requires i < |names| && |names| >= 2
    requires (exists j :: i < j < |names| && names[j] == names[i]) || names[i] == ""
    ensures !Right(Serving(names, OneOff(|names|, i)), Sorted(Served(Serving(names, OneOff(|names|, i))).Keys))
  {
    var hashes := Served(Serving(names, OneOff(|names|, i)));
    var order := Sorted(hashes.Keys);
    AnOrder(hashes);
    forall j | 0 <= j < |order| ensures order[j] in hashes && (hashes[order[j]] == "b" || (j == 0 && order[j] == "")) {
      assert order[j] in order;
      OneOffHash(names, i, order[j]);
      if order[j] == "" {
        EmptyFirst(hashes, j);
      }
    }
    ScanIsQuiet(order, hashes);
    OneOffDisagrees(names, i);
  }

  lemma EmptyFirst(hashes: map<string, string>, j: nat)
    requires j < |Sorted(hashes.Keys)| && Sorted(hashes.Keys)[j] == ""
    ensures j == 0
  {
    SortedIsSorted(hashes.Keys);
    if j > 0 {
      LessEqTotal(Sorted(hashes.Keys)[0], "");
    }
  }

  lemma WrongUnlessNamesFit(names: seq<string>) returns (i: nat, order: seq<string>)
    requires !NamesFit(names)
    ensures !Right(Serving(names, OneOff(|names|, i)), order)
  {
    if j, k :| 0 <= j < k < |names| && names[j] == names[k] {
      i := j;
    } else {
      i :| i < |names| && names[i] == "";
    }
    order := Sorted(Served(Serving(names, OneOff(|names|, i))).Keys);
    WrongForOneOff(names, i);
  }

  /** Whatever is fetched and however the map is iterated, the report is right: exactly for distinct names
      none of which is empty, unless it is the only one. */
  lemma RightExactlyIfNamesFit(names: seq<string>)
    ensures (forall fetched: seq<Option<string>>, order | |fetched| == |names| :: Right(Serving(names, fetched), order)) <==> NamesFit(names)
  {
    if NamesFit(names) {
      forall fetched: seq<Option<string>>, order | |fetched| == |names| ensures Right(Serving(names, fetched), order) {
        RightIfNamesFit(names, fetched, order);
      }
    } else {
      var i, order := WrongUnlessNamesFit(names);
    }
  }

  /** With distinct names that are not empty, the verdict is agreement exactly if all nodes served the same
      hash, in any order of iteration; no agreement without divergences means only that fetching failed. */
  lemma VerdictExactly(nodes: seq<Node>, order: seq<string>)
    requires DistinctNames(nodes) && forall i | 0 <= i < |nodes| :: nodes[i].name != ""
    requires IsOrder(order, Served(nodes))
    ensures var divergences := Divergences(order, Served(nodes)); var agreed := FetchErrors(nodes) == [] && divergences == [];
      && (agreed <==> AllServed(nodes) && !Disagree(nodes))
      && (divergences != [] <==> Disagree(nodes))
      && (!agreed && divergences == [] ==> !AllServed(nodes) && !Disagree(nodes))
  {
    ErrorsExactly(nodes);
    if Divergences(order, Served(nodes)) != [] {
      DivergencesAreReal(nodes, order);
    }
    if Disagree(nodes) {
      DisagreementIsReported(nodes, order);
    }
  }
}
