/** Client designators: parsing a client list and giving its entries distinct names
    (internal/libhive/inventory.go). */
module Clients {
  import opened Wrappers
  import opened Text

  datatype ClientDesignator = ClientDesignator(client: string, nametag: string, dockerfileExt: string,
                                               buildArgs: map<string, string>)
  {
    function Tag(): string { if "tag" in buildArgs then buildArgs["tag"] else "" }

    function Name(): string { if nametag == "" then client else client + "_" + nametag }
  }

  /** The known clients, each with the extensions of its Dockerfiles. */
  type Inventory = map<string, seq<string>>

  datatype Error = InvalidTag | InvalidName | UnknownClient | NoDockerfile | DuplicateName

  // Build strings

  /** All build arguments other than the tag, in the order of their keys. */
  function ArgValues(args: map<string, string>, keys: seq<string>): seq<string>
    requires forall k | k in keys :: k in args
  {
    if keys == [] then []
    else
      var last := keys[|keys| - 1];
      ArgValues(args, keys[..|keys| - 1]) + if last == "tag" then [] else [last, args[last]]
  }

  lemma OneMoreArg(args: map<string, string>, keys: seq<string>, i: nat)
    requires i < |keys| && forall k | k in keys :: k in args
    ensures ArgValues(args, keys[..i + 1])
      == ArgValues(args, keys[..i]) + if keys[i] == "tag" then [] else [keys[i], args[keys[i]]]
  {
    assert keys[..i + 1][..i] == keys[..i];
  }

  function HeadValues(c: ClientDesignator): seq<string> {
    (if c.dockerfileExt != "" then [c.dockerfileExt] else []) + (if c.Tag() != "" then [c.Tag()] else [])
  }

  function BuildString(c: ClientDesignator): string {
    JoinWith(HeadValues(c) + ArgValues(c.buildArgs, Sorted(c.buildArgs.Keys)), '_')
  }

  method ComputeBuildString(c: ClientDesignator) returns (r: string)
    ensures r == BuildString(c)
  {
    var values := [];
    if c.dockerfileExt != "" {
      values := values + [c.dockerfileExt];
    }
    if c.Tag() != "" {
      values := values + [c.Tag()];
    }
    assert values == HeadValues(c);
    values := AppendArgs(values, c.buildArgs, Sorted(c.buildArgs.Keys));
    r := JoinWith(values, '_');
  }

  method AppendArgs(values: seq<string>, args: map<string, string>, keys: seq<string>) returns (r: seq<string>)
    requires forall k | k in keys :: k in args
    ensures r == values + ArgValues(args, keys)
  {
    r := values;
    var i := 0;
    while i < |keys|
      invariant 0 <= i <= |keys|
      invariant r == values + ArgValues(args, keys[..i])
    {
      OneMoreArg(args, keys, i);
      if keys[i] != "tag" {
        r := r + [keys[i], args[keys[i]]];
      }
      i := i + 1;
    }
    assert keys[..|keys|] == keys;
  }

  // Assigning nametags

  function Occurrences(list: seq<ClientDesignator>, client: string): nat {
    if list == [] then 0
    else Occurrences(list[..|list| - 1], client) + if list[|list| - 1].client == client then 1 else 0
  }

  function Tags(list: seq<ClientDesignator>, client: string): set<string> {
    set i | 0 <= i < |list| && list[i].client == client :: list[i].Tag()
  }

  /** The entry is one of several builds of its client. */
  predicate Shared(list: seq<ClientDesignator>, c: ClientDesignator) { Occurrences(list, c.client) > 1 }

  /** Only empty nametags of shared entries are filled in: with the tag if that tells all builds of the
      client apart, otherwise with all build arguments. */
  function Tagged(list: seq<ClientDesignator>, c: ClientDesignator): ClientDesignator {
    if !Shared(list, c) || c.nametag != "" then c
    else if |Tags(list, c.client)| == Occurrences(list, c.client) then c.(nametag := c.Tag())
    else c.(nametag := BuildString(c))
  }

  predicate Known(inv: Inventory, c: ClientDesignator) {
    c.client in inv && (c.dockerfileExt != "" ==> c.dockerfileExt in inv[c.client])
  }

  predicate AllKnown(inv: Inventory, list: seq<ClientDesignator>) { forall i | 0 <= i < |list| :: Known(inv, list[i]) }

  function FinalName(list: seq<ClientDesignator>, i: nat): string
    requires i < |list|
  {
    Tagged(list, list[i]).Name()
  }

  /** The final names of shared entries among the first `n` are pairwise distinct. */
  predicate NamesDistinct(list: seq<ClientDesignator>, n: nat)
    requires n <= |list|
  {
    forall i, j | 0 <= i < j < n && Shared(list, list[i]) && Shared(list, list[j]) ::
      FinalName(list, i) != FinalName(list, j)
  }

  lemma NamesAsListed(list: seq<ClientDesignator>, n: nat)
    requires n <= |list|
    ensures NamesDistinct(list, n) <==> DistinctAmong(FinalNames(list), SharedFlags(list), n)
  {
    var names, flags := FinalNames(list), SharedFlags(list);
    assert forall i | 0 <= i < n :: names[i] == FinalName(list, i) && flags[i] == Shared(list, list[i]);
  }

  function FinalNames(list: seq<ClientDesignator>): seq<string> { seq(|list|, i requires 0 <= i < |list| => FinalName(list, i)) }

  function SharedFlags(list: seq<ClientDesignator>): seq<bool> { seq(|list|, i requires 0 <= i < |list| => Shared(list, list[i])) }

  /** The flagged names among the first `n` are pairwise distinct. */
  predicate DistinctAmong(names: seq<string>, flags: seq<bool>, n: nat)
    requires n <= |names| == |flags|
  {
    forall i, j | 0 <= i < j < n && flags[i] && flags[j] :: names[i] != names[j]
  }

  lemma {:induction false} OccurrencesAtLeast(list: seq<ClientDesignator>, i: nat)
    requires i < |list|
    ensures Occurrences(list, list[i].client) >= 1
    ensures forall j: nat | j < i && list[j].client == list[i].client :: Occurrences(list, list[i].client) >= 2
    decreases |list|
  {
    var front := list[..|list| - 1];
    if i < |list| - 1 {
      OccurrencesAtLeast(front, i);
    } else {
      forall j: nat | j < i && list[j].client == list[i].client ensures Occurrences(list, list[i].client) >= 2 {
        OccurrencesAtLeast(front, j);
      }
    }
  }

  /** The counts and tags of all clients in the list. */
  ghost predicate Counted(list: seq<ClientDesignator>, occurrences: map<string, int>, clientTags: map<string, set<string>>) {
    && occurrences.Keys == clientTags.Keys
    && forall c :: if c in occurrences
         then occurrences[c] == Occurrences(list, c) && clientTags[c] == Tags(list, c)
         else Occurrences(list, c) == 0 && Tags(list, c) == {}
  }

  method CountClients(inv: Inventory, list: seq<ClientDesignator>)
    returns (err: Option<Error>, occurrences: map<string, int>, clientTags: map<string, set<string>>)
    ensures err.None? <==> AllKnown(inv, list)
    ensures err.None? <==> forall i | 0 <= i < |list| ::
      list[i].client in inv && (list[i].dockerfileExt != "" ==> list[i].dockerfileExt in inv[list[i].client])
    ensures err.Some? ==> exists i :: 0 <= i < |list| && AllKnown(inv, list[..i]) && !Known(inv, list[i])
                                      && err.value == if list[i].client !in inv then UnknownClient else NoDockerfile
    ensures err.None? ==> Counted(list, occurrences, clientTags)
  {
    occurrences, clientTags := map[], map[];
    for i := 0 to |list|
      invariant AllKnown(inv, list[..i])
      invariant Counted(list[..i], occurrences, clientTags)
    {
      var c := list[i];
      assert list[..i + 1] == list[..i] + [c];
      AddTag(list[..i], c);
      occurrences := occurrences[c.client := 1 + if c.client in occurrences then occurrences[c.client] else 0];
      if c.client !in inv {
        assert !Known(inv, list[i]);
        return Some(UnknownClient), occurrences, clientTags;
      }
      if c.dockerfileExt != "" && c.dockerfileExt !in inv[c.client] {
        assert !Known(inv, list[i]);
        return Some(NoDockerfile), occurrences, clientTags;
      }
      clientTags := clientTags[c.client := {c.Tag()} + if c.client in clientTags then clientTags[c.client] else {}];
    }
    assert list[..|list|] == list;
    err := None;
  }

  lemma AddTag(list: seq<ClientDesignator>, c: ClientDesignator)
    ensures forall d :: Tags(list + [c], d) == Tags(list, d) + if d == c.client then {c.Tag()} else {}
    ensures forall d :: Occurrences(list + [c], d) == Occurrences(list, d) + if d == c.client then 1 else 0
  {
    var longer := list + [c];
    assert longer[..|longer| - 1] == list;
    forall d ensures Tags(longer, d) == Tags(list, d) + if d == c.client then {c.Tag()} else {} {
      forall t | t in Tags(list, d) ensures t in Tags(longer, d) {
        var i :| 0 <= i < |list| && list[i].client == d && list[i].Tag() == t;
        assert longer[i].client == d && longer[i].Tag() == t;
      }
      if d == c.client {
        assert longer[|list|].client == d && longer[|list|].Tag() == c.Tag();
      }
    }
  }

  /** The nametag pass for one shared entry. */
  method AssignNametag(c: ClientDesignator, occurrences: int, tags: set<string>) returns (r: ClientDesignator)
    ensures r == if c.nametag != "" then c else c.(nametag := if |tags| == occurrences then c.Tag() else BuildString(c))
  {
    r := c;
    if r.nametag == "" {
      if |tags| == occurrences {
        r := r.(nametag := r.Tag());
      } else {
        var b := ComputeBuildString(r);
        r := r.(nametag := b);
      }
    }
  }

  function UsedNames(names: seq<string>, flags: seq<bool>, n: nat): set<string>
    requires n <= |names| == |flags|
  {
    if n == 0 then {} else UsedNames(names, flags, n - 1) + if flags[n - 1] then {names[n - 1]} else {}
  }

  lemma {:induction false} NameIsUsed(names: seq<string>, flags: seq<bool>, n: nat, name: string)
    requires n <= |names| == |flags|
    ensures name in UsedNames(names, flags, n) <==> exists i :: 0 <= i < n && flags[i] && names[i] == name
  {
    if n > 0 {
      NameIsUsed(names, flags, n - 1, name);
    }
  }

  lemma OneMoreName(names: seq<string>, flags: seq<bool>, n: nat)
    requires n < |names| == |flags| && DistinctAmong(names, flags, n)
    ensures DistinctAmong(names, flags, n + 1) <==> !flags[n] || names[n] !in UsedNames(names, flags, n)
  {
    NameIsUsed(names, flags, n, names[n]);
  }

  /** The names that shared entries among the first `n` have taken. */
  function TakenNames(list: seq<ClientDesignator>, n: nat): set<string>
    requires n <= |list|
  {
    UsedNames(FinalNames(list), SharedFlags(list), n)
  }

  lemma OneMoreTaken(list: seq<ClientDesignator>, n: nat)
    requires n < |list| && NamesDistinct(list, n)
    ensures TakenNames(list, n + 1) == TakenNames(list, n) + if Shared(list, list[n]) then {FinalName(list, n)} else {}
    ensures NamesDistinct(list, n + 1) <==> !Shared(list, list[n]) || FinalName(list, n) !in TakenNames(list, n)
  {
    NamesAsListed(list, n);
    NamesAsListed(list, n + 1);
    OneMoreName(FinalNames(list), SharedFlags(list), n);
  }

  lemma DistinctPrefix(list: seq<ClientDesignator>, n: nat)
    requires n <= |list| && !NamesDistinct(list, n)
    ensures !NamesDistinct(list, |list|)
  {
  }

  /** The first `n` entries have their nametags and the rest is as before. */
  predicate TaggedUpTo(before: seq<ClientDesignator>, now: seq<ClientDesignator>, n: nat) {
    |now| == |before| && forall j | 0 <= j < |before| :: now[j] == if j < n then Tagged(before, before[j]) else before[j]
  }

  /** The n-th entry is the first whose name is taken. */
  predicate FirstClash(list: seq<ClientDesignator>, n: nat) {
    0 < n <= |list| && NamesDistinct(list, n - 1) && !NamesDistinct(list, n)
  }

  lemma TaggedFurther(before: seq<ClientDesignator>, now: seq<ClientDesignator>, n: nat)
    requires TaggedUpTo(before, now, n) && n < |before|
    ensures TaggedUpTo(before, now[n := Tagged(before, before[n])], n + 1)
    ensures !Shared(before, before[n]) ==> TaggedUpTo(before, now, n + 1)
  {
  }

  /** Checks the clients of a list and fills in nametags in place, up to the entry whose name is taken. */
  method ValidateClients(inv: Inventory, list: array<ClientDesignator>) returns (err: Option<Error>)
    modifies list
    ensures err.None? <==> AllKnown(inv, old(list[..])) && NamesDistinct(old(list[..]), list.Length)
    ensures err.None? ==> TaggedUpTo(old(list[..]), list[..], list.Length)
    ensures err == Some(DuplicateName) <==> AllKnown(inv, old(list[..])) && !NamesDistinct(old(list[..]), list.Length)
    ensures err == Some(DuplicateName) ==> exists n :: FirstClash(old(list[..]), n) && TaggedUpTo(old(list[..]), list[..], n)
    ensures !AllKnown(inv, old(list[..])) ==> list[..] == old(list[..])
  {
    ghost var before := list[..];
    assert TaggedUpTo(before, list[..], 0);
    var occurrences, clientTags;
    err, occurrences, clientTags := CountClients(inv, list[..]);
    if err.Some? {
      assert list[..] == before;
      return;
    }
    var usednames: set<string> := {};
    for i := 0 to list.Length
      invariant TaggedUpTo(before, list[..], i)
      invariant usednames == TakenNames(before, i)
      invariant NamesDistinct(before, i)
    {
      assert list[..][i] == before[i] == list[i];
      OccurrencesAtLeast(before, i);
      OneMoreTaken(before, i);
      TaggedFurther(before, list[..], i);
      if occurrences[list[i].client] == 1 {
        continue;
      }
      ghost var now := list[..];
      list[i] := AssignNametag(list[i], occurrences[list[i].client], clientTags[list[i].client]);
      assert list[..] == now[i := Tagged(before, before[i])];
      var name := list[i].Name();
      assert name == FinalName(before, i);
      if name in usednames {
        DistinctPrefix(before, i + 1);
        assert FirstClash(before, i + 1);
        return Some(DuplicateName);
      }
      usednames := usednames + {name};
    }
  }

  /** After a successful validation explicit nametags are as given, entries that are the only build of
      their client are untouched, and shared entries have pairwise distinct names. */
  lemma ValidatedNames(before: seq<ClientDesignator>, after: seq<ClientDesignator>)
    requires NamesDistinct(before, |before|)
    requires TaggedUpTo(before, after, |before|)
    ensures forall i | 0 <= i < |before| :: after[i] == before[i].(nametag := after[i].nametag)
    ensures forall i | 0 <= i < |before| && (before[i].nametag != "" || !Shared(before, before[i])) :: after[i] == before[i]
    ensures forall i, j | 0 <= i < j < |after| && after[i].client == after[j].client :: after[i].Name() != after[j].Name()
  {
    forall i, j | 0 <= i < j < |after| && after[i].client == after[j].client
      ensures after[i].Name() != after[j].Name()
    {
      OccurrencesAtLeast(before, j);
      assert Shared(before, before[i]) && Shared(before, before[j]);
      assert FinalName(before, i) != FinalName(before, j);
    }
  }

  // Parsing

  datatype Parsed = Ok(c: ClientDesignator) | Bad(error: Error)

  function ParseClientDesignator(full: string): Parsed {
    var parts := SplitOn(full, '_');
    if '_' in full then
      var client, tag := JoinWith(parts[..|parts| - 1], '_'), parts[|parts| - 1];
      if tag == "" then Bad(InvalidTag)
      else if client == "" then Bad(InvalidName)
      else Ok(ClientDesignator(client, "", "", map["tag" := tag]))
    else if full == "" then Bad(InvalidName)
    else Ok(ClientDesignator(full, "", "", map[]))
  }

  /** How a parsed entry reads: the tag is what follows the last underscore. */
  predicate ReadsAs(c: ClientDesignator, full: string) {
    && c.client != "" && c.nametag == "" && c.dockerfileExt == ""
    && if '_' !in full then c.buildArgs == map[] && full == c.client
       else c.Tag() != "" && '_' !in c.Tag() && c.buildArgs == map["tag" := c.Tag()] && full == c.client + "_" + c.Tag()
  }

  /** Parsing gives exactly the one entry that reads as the string, and fails when there is none. */
  lemma ParsesExactly(full: string, c: ClientDesignator)
    ensures ParseClientDesignator(full) == Ok(c) <==> ReadsAs(c, full)
  {
    var parts := SplitOn(full, '_');
    SplitRejoins(full, '_');
    if '_' in full {
      var client, tag := JoinWith(parts[..|parts| - 1], '_'), parts[|parts| - 1];
      assert tag in parts && full == client + ['_'] + tag;
      if ReadsAs(c, full) {
        LastSeparatorSplits(client, tag, c.client, c.Tag(), '_');
      }
    }
  }

  /** A string is refused for its tag exactly if it ends in an underscore, and for its client exactly if it is empty
      or its only underscore comes first. */
  lemma ParseFailsExactly(full: string)
    ensures ParseClientDesignator(full) == Bad(InvalidTag) <==> full != "" && full[|full| - 1] == '_'
    ensures ParseClientDesignator(full) == Bad(InvalidName)
       <==> full == "" || (|full| > 1 && full[0] == '_' && '_' !in full[1..])
  {
    var parts := SplitOn(full, '_');
    SplitRejoins(full, '_');
    if '_' in full {
      var client, tag := JoinWith(parts[..|parts| - 1], '_'), parts[|parts| - 1];
      assert tag in parts && full == client + ['_'] + tag;
      if tag != "" {
        assert full[|full| - 1] == tag[|tag| - 1] && tag[|tag| - 1] in tag;
      }
      if full[0] == '_' && '_' !in full[1..] {
        assert full == "" + ['_'] + full[1..];
        LastSeparatorSplits(client, tag, "", full[1..], '_');
      }
      if client == "" {
        assert full[0] == '_' && full[1..] == tag;
      }
    }
  }

  predicate AllParse(names: seq<string>) { forall i | 0 <= i < |names| :: ParseClientDesignator(names[i]).Ok? }

  predicate AllDistinct(names: seq<string>) { forall i, j | 0 <= i < j < |names| :: names[i] != names[j] }

  predicate AllListed(inv: Inventory, names: seq<string>)
    requires AllParse(names)
  {
    forall i | 0 <= i < |names| :: ParseClientDesignator(names[i]).c.client in inv
  }

  predicate ParsedFrom(names: seq<string>, list: seq<ClientDesignator>) {
    |list| == |names| && forall i | 0 <= i < |names| :: ParseClientDesignator(names[i]) == Ok(list[i])
  }

  /** Each entry names the client of its string, and as a shared entry the string itself. */
  predicate NamedAfter(names: seq<string>, list: seq<ClientDesignator>) {
    && |list| == |names|
    && forall i | 0 <= i < |names| ::
         && (ReadsAs(list[i].(nametag := ""), names[i]))
         && list[i].Name() == if Shared(list, list[i]) then names[i] else list[i].client
  }

  datatype ClientList = Clients(list: seq<ClientDesignator>) | Failed(error: Error)

  method ParseClientList(inv: Inventory, arg: string) returns (r: ClientList)
    ensures r.Clients? <==> (var names := SplitOn(arg, ','); AllParse(names) && AllListed(inv, names) && AllDistinct(names))
    ensures r.Clients? ==> NamedAfter(SplitOn(arg, ','), r.list)
  {
    var names := SplitOn(arg, ',');
    var res: seq<ClientDesignator> := [];
    for i := 0 to |names|
      invariant ParsedFrom(names[..i], res)
    {
      var p := ParseClientDesignator(names[i]);
      if p.Bad? {
        return Failed(p.error);
      }
      res := res + [p.c];
    }
    assert names[..|names|] == names;
    var list := new ClientDesignator[|res|](k requires 0 <= k < |res| => res[k]);
    assert list[..] == res;
    var err := ValidateClients(inv, list);
    ParsedNames(names, res);
    ListedAreKnown(inv, names, res);
    if err.Some? {
      r := Failed(err.value);
    } else {
      r := Clients(list[..]);
      TaggedAreNamed(names, res, list[..]);
    }
  }

  lemma ListedAreKnown(inv: Inventory, names: seq<string>, res: seq<ClientDesignator>)
    requires ParsedFrom(names, res)
    ensures AllParse(names) && (AllKnown(inv, res) <==> AllListed(inv, names))
  {
  }

  lemma TaggedAreNamed(names: seq<string>, res: seq<ClientDesignator>, after: seq<ClientDesignator>)
    requires ParsedFrom(names, res) && TaggedUpTo(res, after, |res|)
    ensures NamedAfter(names, after)
  {
    ParsedNames(names, res);
    SameClientsSameOccurrences(res, after);
    forall i | 0 <= i < |res| ensures ReadsAs(after[i].(nametag := ""), names[i]) {
      ParsesExactly(names[i], res[i]);
      assert after[i].(nametag := "") == res[i];
    }
  }

  /** Of parsed entries the final name is the string they were parsed from, if shared; so distinct
      strings and distinct names of shared entries come to the same. */
  lemma ParsedNames(names: seq<string>, res: seq<ClientDesignator>)
    requires ParsedFrom(names, res)
    ensures forall i | 0 <= i < |res| :: FinalName(res, i) == if Shared(res, res[i]) then names[i] else res[i].client
    ensures NamesDistinct(res, |res|) <==> AllDistinct(names)
  {
    forall i | 0 <= i < |res|
      ensures FinalName(res, i) == if Shared(res, res[i]) then names[i] else res[i].client
    {
      ParsesExactly(names[i], res[i]);
      BuildStringOfParsed(names[i], res[i]);
    }
    forall i, j | 0 <= i < j < |res| && names[i] == names[j]
      ensures Shared(res, res[i]) && Shared(res, res[j]) && FinalName(res, i) == FinalName(res, j)
    {
      OccurrencesAtLeast(res, j);
    }
  }

  lemma BuildStringOfParsed(full: string, c: ClientDesignator)
    requires ReadsAs(c, full)
    ensures BuildString(c) == c.Tag()
  {
    var keys := Sorted(c.buildArgs.Keys);
    OnlyTagKeys(c.buildArgs, keys);
  }

  lemma {:induction false} OnlyTagKeys(args: map<string, string>, keys: seq<string>)
    requires forall k | k in keys :: k in args && k == "tag"
    ensures ArgValues(args, keys) == []
  {
    if keys != [] {
      var last := keys[|keys| - 1];
      assert last in keys;
      OnlyTagKeys(args, keys[..|keys| - 1]);
    }
  }

  lemma {:induction false} SameClientsSameOccurrences(a: seq<ClientDesignator>, b: seq<ClientDesignator>)
    requires |a| == |b| && forall i | 0 <= i < |a| :: a[i].client == b[i].client
    ensures forall client :: Occurrences(a, client) == Occurrences(b, client)
  {
    if a != [] {
      SameClientsSameOccurrences(a[..|a| - 1], b[..|b| - 1]);
    }
  }
}
