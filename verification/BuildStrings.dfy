/** What the build string of a client entry holds, and which entries it tells apart
    (internal/libhive/inventory.go). */
module BuildStrings {
  import opened Wrappers
  import opened Text
  import opened Clients

  // Joined texts

  function Total(parts: seq<string>): nat {
    if parts == [] then 0 else Total(parts[..|parts| - 1]) + |parts[|parts| - 1]|
  }

  lemma {:induction false} JoinLength(parts: seq<string>, sep: char)
    ensures |JoinWith(parts, sep)| == Total(parts) + if |parts| > 0 then |parts| - 1 else 0
  {
    if |parts| > 1 {
      JoinLength(parts[..|parts| - 1], sep);
    } else if |parts| == 1 {
      assert parts[..0] == [];
    }
  }

  lemma {:induction false} TotalConcat(a: seq<string>, b: seq<string>)
    ensures Total(a + b) == Total(a) + Total(b)
  {
    if b == [] {
      assert a + b == a;
    } else {
      TotalConcat(a, b[..|b| - 1]);
      assert (a + b)[..|a + b| - 1] == a + b[..|b| - 1];
    }
  }

  /** Putting in parts makes the text longer, unless all that is put in is one empty part into nothing. */
  lemma InsertedIsLonger(a: seq<string>, more: seq<string>, b: seq<string>, sep: char)
    requires more != [] && (|more| > 1 || more[0] != "")
    ensures |JoinWith(a + more + b, sep)| > |JoinWith(a + b, sep)|
  {
    JoinLength(a + more + b, sep);
    JoinLength(a + b, sep);
    TotalConcat(a + more, b);
    TotalConcat(a, more);
    TotalConcat(a, b);
    if |more| == 1 {
      assert more[..0] == [];
    }
  }

  lemma {:induction false} JoinConcat(a: seq<string>, b: seq<string>, sep: char)
    requires a != [] && b != []
    ensures JoinWith(a + b, sep) == JoinWith(a, sep) + [sep] + JoinWith(b, sep)
  {
    var front := b[..|b| - 1];
    assert (a + b)[..|a + b| - 1] == a + front;
    if |b| == 1 {
      assert a + front == a;
    } else {
      JoinConcat(a, front, sep);
    }
  }

  /** Exchanging one part for another changes the text. */
  lemma ExchangedDiffers(a: seq<string>, v: string, w: string, b: seq<string>, sep: char)
    requires JoinWith(a + [v] + b, sep) == JoinWith(a + [w] + b, sep)
    ensures v == w
  {
    var before := if a == [] then "" else JoinWith(a, sep) + [sep];
    var after := if b == [] then "" else [sep] + JoinWith(b, sep);
    JoinAround(a, v, b, sep);
    JoinAround(a, w, b, sep);
    var s, t := before + v + after, before + w + after;
    assert |v| == |w|;
    assert v == s[|before|..|before| + |v|] && w == t[|before|..|before| + |w|];
  }

  lemma JoinAround(a: seq<string>, v: string, b: seq<string>, sep: char)
    ensures JoinWith(a + [v] + b, sep)
      == (if a == [] then "" else JoinWith(a, sep) + [sep]) + v + (if b == [] then "" else [sep] + JoinWith(b, sep))
  {
    if a == [] {
      assert a + [v] == [v];
    } else {
      JoinConcat(a, [v], sep);
    }
    if b == [] {
      assert a + [v] + b == a + [v];
    } else {
      JoinConcat(a + [v], b, sep);
    }
  }

  // What a build string holds

  lemma {:induction false} ArgValuesConcat(args: map<string, string>, a: seq<string>, b: seq<string>)
    requires forall k | k in a + b :: k in args
    ensures (forall k | k in a :: k in args) && (forall k | k in b :: k in args)
    ensures ArgValues(args, a + b) == ArgValues(args, a) + ArgValues(args, b)
  {
    forall k | k in a ensures k in args { assert k in a + b; }
    forall k | k in b ensures k in args { assert k in a + b; }
    if b == [] {
      assert a + b == a;
    } else {
      var front, last := b[..|b| - 1], b[|b| - 1];
      assert (a + b)[..|a + b| - 1] == a + front && (a + b)[|a + b| - 1] == last;
      forall k | k in a + front ensures k in args { assert k in a + b; }
      ArgValuesConcat(args, a, front);
    }
  }

  lemma {:induction false} ArgValuesSame(args: map<string, string>, args': map<string, string>, keys: seq<string>)
    requires forall k | k in keys :: k in args && k in args' && args[k] == args'[k]
    ensures ArgValues(args, keys) == ArgValues(args', keys)
  {
    if keys != [] {
      assert keys[|keys| - 1] in keys;
      ArgValuesSame(args, args', keys[..|keys| - 1]);
    }
  }

  /** `kept` are the keys other than "tag", and `values` has each of them followed by its argument. */
  ghost predicate ListsArgs(args: map<string, string>, kept: seq<string>, values: seq<string>) {
    |values| == 2 * |kept| && forall i | 0 <= i < |kept| :: kept[i] in args && values[2 * i] == kept[i] && values[2 * i + 1] == args[kept[i]]
  }

  lemma ListsOneMore(args: map<string, string>, kept: seq<string>, values: seq<string>, k: string)
    requires ListsArgs(args, kept, values) && k in args
    ensures ListsArgs(args, kept + [k], values + [k, args[k]])
  {
  }

  lemma {:induction false} ArgValuesListed(args: map<string, string>, keys: seq<string>) returns (kept: seq<string>)
    requires Ascending(keys) && forall k | k in keys :: k in args
    ensures ListsArgs(args, kept, ArgValues(args, keys))
    ensures Ascending(kept) && forall k :: k in kept <==> k in keys && k != "tag"
  {
    kept := [];
    if keys != [] {
      var front, last := keys[..|keys| - 1], keys[|keys| - 1];
      assert keys == front + [last];
      kept := ArgValuesListed(args, front);
      if last != "tag" {
        ListsOneMore(args, kept, ArgValues(args, front), last);
        forall j | 0 <= j < |kept| ensures LessEq(kept[j], last) && kept[j] != last {
          assert kept[j] in front;
        }
        kept := kept + [last];
      }
    }
  }

  /** `values` is the extension if there is one, the tag if there is one, then each key followed by its argument. */
  ghost predicate Holds(c: ClientDesignator, keys: seq<string>, values: seq<string>) {
    var ext := if c.dockerfileExt != "" then 1 else 0;
    var head := ext + if "tag" in c.buildArgs && c.buildArgs["tag"] != "" then 1 else 0;
    && |values| == head + 2 * |keys|
    && (ext == 1 ==> values[0] == c.dockerfileExt) && (head > ext ==> values[ext] == c.buildArgs["tag"])
    && forall i | 0 <= i < |keys| ::
         keys[i] in c.buildArgs && values[head + 2 * i] == keys[i] && values[head + 2 * i + 1] == c.buildArgs[keys[i]]
  }

  lemma HeadThenArgs(c: ClientDesignator, keys: seq<string>, args: seq<string>)
    requires ListsArgs(c.buildArgs, keys, args)
    ensures Holds(c, keys, HeadValues(c) + args)
  {
  }

  /** The build string joins by underscores the Dockerfile extension if there is one, the tag if there is one, and
      every other build argument, the key before the value, in ascending order of the keys. */
  lemma BuildStringHolds(c: ClientDesignator) returns (keys: seq<string>, values: seq<string>)
    ensures Ascending(keys) && forall k :: k in keys <==> k in c.buildArgs && k != "tag"
    ensures Holds(c, keys, values) && BuildString(c) == JoinWith(values, '_')
  {
    SortedIsAscending(c.buildArgs.Keys);
    keys := ArgValuesListed(c.buildArgs, Sorted(c.buildArgs.Keys));
    values := HeadValues(c) + ArgValues(c.buildArgs, Sorted(c.buildArgs.Keys));
    HeadThenArgs(c, keys, ArgValues(c.buildArgs, Sorted(c.buildArgs.Keys)));
  }

  // Entries that differ in one thing

  function With(args: map<string, string>, k: string, v: Option<string>): map<string, string> {
    if v.Some? then args[k := v.value] else args
  }

  /** The values of the arguments with `k` set to `v`, or not set, in the order of their keys. */
  function ArgsList(args: map<string, string>, k: string, v: Option<string>): seq<string> {
    ArgValues(With(args, k, v), Sorted(With(args, k, v).Keys))
  }

  ghost predicate ArgsSplit(args: map<string, string>, k: string, v: Option<string>, before: seq<string>, after: seq<string>) {
    ArgsList(args, k, v) == before + (if v.Some? && k != "tag" then [k, v.value] else []) + after
  }

  /** Setting one more build argument puts it in at one place. */
  lemma ArgsWith(args: map<string, string>, k: string) returns (before: seq<string>, after: seq<string>)
    requires k !in args
    ensures forall v: Option<string> :: ArgsSplit(args, k, v, before, after)
  {
    var l, r := SortedWith(args.Keys, k);
    SplitMembers(args, l, r);
    before, after := ArgValues(args, l), ArgValues(args, r);
    forall v: Option<string> ensures ArgsSplit(args, k, v, before, after) {
      ArgsSplitFor(args, k, v, l, r);
    }
  }

  lemma SplitMembers(args: map<string, string>, l: seq<string>, r: seq<string>)
    requires Sorted(args.Keys) == l + r
    ensures (forall x | x in l :: x in args) && forall x | x in r :: x in args
  {
    forall x | x in l + r ensures x in args { assert x in Sorted(args.Keys); }
    forall x | x in l ensures x in args { assert x in l + r; }
    forall x | x in r ensures x in args { assert x in l + r; }
  }

  lemma ArgsSplitFor(args: map<string, string>, k: string, v: Option<string>, l: seq<string>, r: seq<string>)
    requires k !in args && Sorted(args.Keys) == l + r && Sorted(args.Keys + {k}) == l + [k] + r
    requires (forall x | x in l :: x in args) && (forall x | x in r :: x in args)
    ensures ArgsSplit(args, k, v, ArgValues(args, l), ArgValues(args, r))
  {
    if v.Some? {
      ArgsSet(args, k, v.value, l, r);
    } else {
      ArgValuesConcat(args, l, r);
      assert ArgValues(args, l) + [] == ArgValues(args, l);
    }
  }

  lemma ArgsSet(args: map<string, string>, k: string, v: string, l: seq<string>, r: seq<string>)
    requires k !in args && Sorted(args.Keys) == l + r && Sorted(args.Keys + {k}) == l + [k] + r
    requires (forall x | x in l :: x in args) && (forall x | x in r :: x in args)
    ensures ArgValues(args[k := v], Sorted(args[k := v].Keys))
      == ArgValues(args, l) + (if k != "tag" then [k, v] else []) + ArgValues(args, r)
  {
    var more := args[k := v];
    assert more.Keys == args.Keys + {k};
    ArgValuesConcat(more, l + [k], r);
    ArgValuesConcat(more, l, [k]);
    ArgValuesSame(more, args, l);
    ArgValuesSame(more, args, r);
    assert [k][..0] == [];
    assert ArgValues(more, [k]) == if k != "tag" then [k, v] else [];
  }

  function TagText(v: Option<string>): string { if v.Some? then v.value else "" }

  /** The build string tells entries apart that differ in the Dockerfile extension alone. */
  lemma ExtensionTells(c: ClientDesignator, ext: string)
    ensures BuildString(c) == BuildString(c.(dockerfileExt := ext)) <==> c.dockerfileExt == ext
  {
    var d := c.(dockerfileExt := ext);
    var rest := (if c.Tag() != "" then [c.Tag()] else []) + ArgValues(c.buildArgs, Sorted(c.buildArgs.Keys));
    ValuesFromExtension(c, rest);
    ValuesFromExtension(d, rest);
    OneOrNone([], c.dockerfileExt, d.dockerfileExt, rest);
  }

  lemma ValuesFromExtension(c: ClientDesignator, rest: seq<string>)
    requires rest == (if c.Tag() != "" then [c.Tag()] else []) + ArgValues(c.buildArgs, Sorted(c.buildArgs.Keys))
    ensures BuildString(c) == JoinWith([] + (if c.dockerfileExt != "" then [c.dockerfileExt] else []) + rest, '_')
  {
    var ext, tag := if c.dockerfileExt != "" then [c.dockerfileExt] else [], if c.Tag() != "" then [c.Tag()] else [];
    var args := ArgValues(c.buildArgs, Sorted(c.buildArgs.Keys));
    assert HeadValues(c) == ext + tag && rest == tag + args;
    assert (ext + tag) + args == ext + (tag + args);
    assert [] + ext == ext;
  }

  /** A part that is left out when it is empty determines the text, and the text determines it. */
  lemma OneOrNone(a: seq<string>, v: string, w: string, b: seq<string>)
    ensures JoinWith(a + (if v != "" then [v] else []) + b, '_') == JoinWith(a + (if w != "" then [w] else []) + b, '_') <==> v == w
  {
    assert a + [] + b == a + b;
    if v != "" { InsertedIsLonger(a, [v], b, '_'); }
    if w != "" { InsertedIsLonger(a, [w], b, '_'); }
    if v != "" && w != "" && v != w {
      if JoinWith(a + [v] + b, '_') == JoinWith(a + [w] + b, '_') {
        ExchangedDiffers(a, v, w, b, '_');
      }
    }
  }

  /** It tells entries apart that differ in one build argument alone, set to different values or set in one of
      them only; a missing tag and an empty one are the same thing. */
  lemma ArgumentTells(c: ClientDesignator, k: string, v: Option<string>, w: Option<string>)
    requires k !in c.buildArgs
    ensures BuildString(c.(buildArgs := With(c.buildArgs, k, v))) == BuildString(c.(buildArgs := With(c.buildArgs, k, w)))
       <==> (if k == "tag" then TagText(v) == TagText(w) else v == w)
  {
    if k == "tag" {
      TagTells(c, v, w);
    } else {
      OtherArgumentTells(c, k, v, w);
    }
  }

  lemma TagTells(c: ClientDesignator, v: Option<string>, w: Option<string>)
    requires "tag" !in c.buildArgs
    ensures BuildString(c.(buildArgs := With(c.buildArgs, "tag", v))) == BuildString(c.(buildArgs := With(c.buildArgs, "tag", w)))
       <==> TagText(v) == TagText(w)
  {
    var before, after := ArgsWith(c.buildArgs, "tag");
    assert ArgsSplit(c.buildArgs, "tag", v, before, after) && ArgsSplit(c.buildArgs, "tag", w, before, after);
    var args := ArgsList(c.buildArgs, "tag", v);
    assert args == before + [] + after == ArgsList(c.buildArgs, "tag", w);
    TagPlaced(c, v, args);
    TagPlaced(c, w, args);
    OneOrNone(if c.dockerfileExt != "" then [c.dockerfileExt] else [], TagText(v), TagText(w), args);
  }

  lemma OtherArgumentTells(c: ClientDesignator, k: string, v: Option<string>, w: Option<string>)
    requires k !in c.buildArgs && k != "tag"
    ensures BuildString(c.(buildArgs := With(c.buildArgs, k, v))) == BuildString(c.(buildArgs := With(c.buildArgs, k, w))) <==> v == w
  {
    var before, after := ArgsWith(c.buildArgs, k);
    ArgumentPlaced(c, k, v, before, after);
    ArgumentPlaced(c, k, w, before, after);
    ArgumentOrNone(HeadValues(c) + before, k, v, w, after);
  }

  lemma TagPlaced(c: ClientDesignator, v: Option<string>, args: seq<string>)
    requires "tag" !in c.buildArgs
    requires ArgsList(c.buildArgs, "tag", v) == args
    ensures BuildString(c.(buildArgs := With(c.buildArgs, "tag", v)))
      == JoinWith((if c.dockerfileExt != "" then [c.dockerfileExt] else []) + (if TagText(v) != "" then [TagText(v)] else []) + args, '_')
  {
    assert c.(buildArgs := With(c.buildArgs, "tag", v)).Tag() == TagText(v);
  }

  lemma ArgumentPlaced(c: ClientDesignator, k: string, v: Option<string>, before: seq<string>, after: seq<string>)
    requires k !in c.buildArgs && k != "tag" && ArgsSplit(c.buildArgs, k, v, before, after)
    ensures BuildString(c.(buildArgs := With(c.buildArgs, k, v)))
      == JoinWith(HeadValues(c) + before + (if v.Some? then [k, v.value] else []) + after, '_')
  {
    var d, more := c.(buildArgs := With(c.buildArgs, k, v)), if v.Some? then [k, v.value] else [];
    assert HeadValues(d) == HeadValues(c);
    assert HeadValues(c) + (before + more + after) == HeadValues(c) + before + more + after;
  }

  lemma ArgumentOrNone(a: seq<string>, k: string, v: Option<string>, w: Option<string>, b: seq<string>)
    ensures JoinWith(a + (if v.Some? then [k, v.value] else []) + b, '_') == JoinWith(a + (if w.Some? then [k, w.value] else []) + b, '_')
       <==> v == w
  {
    assert a + [] + b == a + b;
    if v.Some? { InsertedIsLonger(a, [k, v.value], b, '_'); }
    if w.Some? { InsertedIsLonger(a, [k, w.value], b, '_'); }
    if v.Some? && w.Some? && v != w {
      assert a + [k, v.value] + b == a + [k] + [v.value] + b && a + [k, w.value] + b == a + [k] + [w.value] + b;
      if JoinWith(a + [k] + [v.value] + b, '_') == JoinWith(a + [k] + [w.value] + b, '_') {
        ExchangedDiffers(a + [k], v.value, w.value, b, '_');
      }
    }
  }

  // When two build strings are the same

  /** The pieces of several texts between underscores, one after the other. */
  function Pieces(values: seq<string>): seq<string> {
    if values == [] then [""]
    else if |values| == 1 then SplitOn(values[0], '_')
    else Pieces(values[..|values| - 1]) + SplitOn(values[|values| - 1], '_')
  }

  lemma {:induction false} SplitBehind(a: string, b: string, sep: char)
    ensures SplitOn(a + [sep] + b, sep) == SplitOn(a, sep) + SplitOn(b, sep)
  {
    var s := a + [sep] + b;
    if b == "" {
      assert s[..|s| - 1] == a;
    } else {
      SplitBehind(a, b[..|b| - 1], sep);
      assert s[..|s| - 1] == a + [sep] + b[..|b| - 1] && s[|s| - 1] == b[|b| - 1];
    }
  }

  lemma {:induction false} SplitOfJoin(values: seq<string>)
    ensures SplitOn(JoinWith(values, '_'), '_') == Pieces(values)
  {
    if |values| > 1 {
      SplitOfJoin(values[..|values| - 1]);
      SplitBehind(JoinWith(values[..|values| - 1], '_'), values[|values| - 1], '_');
    }
  }

  /** Two build strings are the same exactly if what they hold has the same pieces between underscores. */
  lemma CollideExactly(c: ClientDesignator, d: ClientDesignator)
    returns (keys: seq<string>, values: seq<string>, keys': seq<string>, values': seq<string>)
    ensures Ascending(keys) && forall k :: k in keys <==> k in c.buildArgs && k != "tag"
    ensures Ascending(keys') && forall k :: k in keys' <==> k in d.buildArgs && k != "tag"
    ensures Holds(c, keys, values) && Holds(d, keys', values')
    ensures BuildString(c) == BuildString(d) <==> Pieces(values) == Pieces(values')
  {
    keys, values := BuildStringHolds(c);
    keys', values' := BuildStringHolds(d);
    SplitOfJoin(values);
    SplitOfJoin(values');
    SplitRejoins(BuildString(c), '_');
    SplitRejoins(BuildString(d), '_');
  }

  /** Different builds can share a build string, with an underscore inside a value and without any. */
  lemma DifferentBuildsCollide(client: string)
    ensures BuildString(ClientDesignator(client, "", "a_b", map[])) == "a_b"
    ensures BuildString(ClientDesignator(client, "", "a", map["tag" := "b"])) == "a_b"
    ensures BuildString(ClientDesignator(client, "", "a", map[])) == "a"
    ensures BuildString(ClientDesignator(client, "", "", map["tag" := "a"])) == "a"
  {
    HeadAlone(ClientDesignator(client, "", "a_b", map[]), ["a_b"]);
    HeadAlone(ClientDesignator(client, "", "a", map["tag" := "b"]), ["a", "b"]);
    HeadAlone(ClientDesignator(client, "", "a", map[]), ["a"]);
    HeadAlone(ClientDesignator(client, "", "", map["tag" := "a"]), ["a"]);
    assert ["a", "b"][..1] == ["a"];
  }

  lemma HeadAlone(c: ClientDesignator, head: seq<string>)
    requires (forall k | k in c.buildArgs :: k == "tag") && head == HeadValues(c)
    ensures BuildString(c) == JoinWith(head, '_')
  {
    OnlyTagKeys(c.buildArgs, Sorted(c.buildArgs.Keys));
    assert head + [] == head;
  }

  // The names that entries get

  /** The number of builds of a client is the number of its entries. */
  lemma {:induction false} OccurrencesCounted(list: seq<ClientDesignator>, client: string)
    ensures Occurrences(list, client) == |set i | 0 <= i < |list| && list[i].client == client|
  {
    if list != [] {
      var front, n := list[..|list| - 1], |list| - 1;
      OccurrencesCounted(front, client);
      assert (set i | 0 <= i < |list| && list[i].client == client)
        == (set i | 0 <= i < |front| && front[i].client == client) + if list[n].client == client then {n} else {};
    }
  }

  ghost predicate TagsDiffer(list: seq<ClientDesignator>, client: string) {
    forall i, j | 0 <= i < j < |list| && list[i].client == client && list[j].client == client :: list[i].Tag() != list[j].Tag()
  }

  /** The tags tell all builds of a client apart exactly if there are as many of them as builds. */
  lemma {:induction false} TagsTellApart(list: seq<ClientDesignator>, client: string)
    ensures |Tags(list, client)| <= Occurrences(list, client)
    ensures |Tags(list, client)| == Occurrences(list, client) <==> TagsDiffer(list, client)
  {
    if list != [] {
      var front, last := list[..|list| - 1], list[|list| - 1];
      TagsTellApart(front, client);
      AddTag(front, last);
      assert list == front + [last];
      TagsDifferFurther(front, last, client);
    }
  }

  lemma TagsDifferFurther(front: seq<ClientDesignator>, last: ClientDesignator, client: string)
    ensures TagsDiffer(front + [last], client)
       <==> TagsDiffer(front, client) && (last.client == client ==> last.Tag() !in Tags(front, client))
  {
    var list := front + [last];
    if TagsDiffer(list, client) {
      forall i, j | 0 <= i < j < |front| && front[i].client == client && front[j].client == client
        ensures front[i].Tag() != front[j].Tag() {
        assert list[i].Tag() != list[j].Tag();
      }
      forall i | 0 <= i < |front| && front[i].client == client && last.client == client ensures front[i].Tag() != last.Tag() {
        assert list[i].Tag() != list[|front|].Tag();
      }
    }
  }

  /** Of two builds of one client without nametags of their own, the names differ exactly if the tags tell all
      builds of that client apart, or else the build strings differ. */
  lemma NamesDifferExactly(list: seq<ClientDesignator>, i: nat, j: nat)
    requires i < j < |list| && list[i].client == list[j].client && list[i].nametag == "" && list[j].nametag == ""
    ensures FinalName(list, i) != FinalName(list, j)
       <==> TagsDiffer(list, list[i].client) || BuildString(list[i]) != BuildString(list[j])
  {
    OccurrencesAtLeast(list, j);
    TagsTellApart(list, list[i].client);
    if TagsDiffer(list, list[i].client) {
      NameTellsTags(list[i], list[i].Tag(), list[j].Tag());
    } else {
      NameTellsTags(list[i], BuildString(list[i]), BuildString(list[j]));
    }
  }

  lemma NameTellsTags(c: ClientDesignator, a: string, b: string)
    ensures c.(nametag := a).Name() == c.(nametag := b).Name() <==> a == b
  {
    if c.(nametag := a).Name() == c.(nametag := b).Name() {
      var n := |c.client + "_"|;
      assert |a| == |b|;
      assert a != "" ==> (c.client + "_" + a)[n..] == a && (c.client + "_" + b)[n..] == b;
    }
  }

  /** Two builds of one client that differ in the Dockerfile extension alone get different names. */
  lemma ExtensionsGetNames(list: seq<ClientDesignator>, i: nat, j: nat)
    requires i < j < |list| && list[i].nametag == ""
    requires list[j] == list[i].(dockerfileExt := list[j].dockerfileExt) && list[j].dockerfileExt != list[i].dockerfileExt
    ensures FinalName(list, i) != FinalName(list, j)
  {
    ExtensionTells(list[i], list[j].dockerfileExt);
    NamesDifferExactly(list, i, j);
  }

  /** So do two that differ in one build argument alone, except if that is the tag, missing in one and empty in the
      other. */
  lemma ArgumentsGetNames(list: seq<ClientDesignator>, i: nat, j: nat, c: ClientDesignator, k: string, v: Option<string>, w: Option<string>)
    requires i < j < |list| && c.nametag == "" && k !in c.buildArgs && v != w
    requires list[i] == c.(buildArgs := With(c.buildArgs, k, v)) && list[j] == c.(buildArgs := With(c.buildArgs, k, w))
    ensures FinalName(list, i) == FinalName(list, j) <==> k == "tag" && TagText(v) == TagText(w)
  {
    ArgumentTells(c, k, v, w);
    NamesDifferExactly(list, i, j);
    if k == "tag" && TagText(v) == TagText(w) {
      assert list[i].Tag() == TagText(v) && list[j].Tag() == TagText(w);
    }
  }
}
