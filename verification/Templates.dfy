/** Analysis templates that refer to further templates, and the arguments they bring together. */
module Templates {
  import opened Prelude
  import opened Lists

  // ---------------------------------------------------------------------------------------------
  // Collecting templates

  /** A reference to a template by name, in the namespace of the rollout or in the cluster scope. */
  datatype Ref = Ref(cluster: bool, name: string)

  /** The templates that exist, each with the references in its own specification. */
  type Store = map<Ref, seq<Ref>>

  /** A chain of references that starts in `refs` and ends in `t`; all but its end exist. */
  ghost predicate IsChain(store: Store, refs: seq<Ref>, chain: seq<Ref>, t: Ref) {
    && chain != [] && chain[0] in refs && chain[|chain| - 1] == t
    && forall i :: 0 <= i < |chain| - 1 ==> chain[i] in store && chain[i + 1] in store[chain[i]]
  }

  ghost predicate Reachable(store: Store, refs: seq<Ref>, t: Ref) {
    exists chain :: IsChain(store, refs, chain, t)
  }

  /** `rank` decreases along every reference of the templates that `refs` reach: there is no cycle among these. */
  ghost predicate Acyclic(store: Store, refs: seq<Ref>, rank: Ref -> nat) {
    forall t, u :: Reachable(store, refs, t) && t in store && u in store[t] ==> rank(u) < rank(t)
  }

  /** The templates found so far, by scope. */
  datatype Found = Found(templates: seq<string>, clusterTemplates: seq<string>)

  predicate Has(f: Found, t: Ref) {
    t.name in (if t.cluster then f.clusterTemplates else f.templates)
  }

  function AddRef(f: Found, t: Ref): Found {
    if t.cluster then f.(clusterTemplates := f.clusterTemplates + [t.name]) else f.(templates := f.templates + [t.name])
  }

  function AddAll(f: Found, g: Found): Found {
    Found(f.templates + g.templates, f.clusterTemplates + g.clusterTemplates)
  }

  method FilterUnique(names: seq<string>) returns (unique: seq<string>)
    ensures unique == Dedup(names)
  {
    unique := [];
    var seen := {};
    for i := 0 to |names|
      invariant unique == Dedup(names[..i])
      invariant seen == set k | 0 <= k < i :: names[k]
    {
      assert names[..i + 1][..i] == names[..i];
      assert names[i] in seen <==> names[i] in names[..i];
      if names[i] !in seen {
        seen := seen + {names[i]};
        unique := unique + [names[i]];
      }
    }
    assert names[..|names|] == names;
  }

  /** Collect the referenced templates, and theirs. Without cycles this ends; it succeeds exactly when every
      reachable template exists, and then finds exactly the reachable ones, each once in its scope. */
  method GetAnalysisTemplatesFromRefs(store: Store, refs: seq<Ref>, ghost rank: Ref -> nat, ghost bound: nat)
    returns (found: Result<Found, Ref>)
    requires Acyclic(store, refs, rank)
    requires forall t :: t in refs ==> rank(t) < bound
    ensures found.Ok? <==> forall t :: Reachable(store, refs, t) ==> t in store
    ensures found.Ok? ==> forall t :: Has(found.value, t) <==> Reachable(store, refs, t)
    ensures found.Ok? ==> Distinct(found.value.templates) && Distinct(found.value.clusterTemplates)
    ensures found.Err? ==> found.error !in store && Reachable(store, refs, found.error)
    decreases bound
  {
    hide IsChain, Reachable;
    var all := Found([], []);
    NothingReachable(store);
    for i := 0 to |refs|
      invariant forall t :: Has(all, t) <==> Reachable(store, refs[..i], t)
      invariant forall t :: Reachable(store, refs[..i], t) ==> t in store
    {
      var ref := refs[i];
      forall t
        ensures Reachable(store, refs[..i + 1], t) <==> Reachable(store, refs[..i], t) || Reachable(store, [ref], t)
        ensures Reachable(store, [ref], t) <==> t == ref || (ref in store && Reachable(store, store[ref], t))
        ensures Reachable(store, refs[..i + 1], t) ==> Reachable(store, refs, t)
      {
        assert refs[..i + 1] == refs[..i] + [ref];
        ReachSplit(store, refs[..i], [ref], t);
        ReachOne(store, ref, t);
        assert refs == refs[..i + 1] + refs[i + 1..];
        ReachSplit(store, refs[..i + 1], refs[i + 1..], t);
      }
      if ref !in store {
        return Err(ref);
      }
      var inner := GetAnalysisTemplatesFromRefs(store, store[ref], rank, rank(ref));
      if inner.Err? {
        return Err(inner.error);
      }
      HasAdded(all, ref, inner.value);
      all := AddAll(AddRef(all, ref), inner.value);
    }
    assert refs[..|refs|] == refs;
    var templates := FilterUnique(all.templates);
    var clusterTemplates := FilterUnique(all.clusterTemplates);
    DedupKeepsFirsts(all.templates);
    DedupKeepsFirsts(all.clusterTemplates);
    found := Ok(Found(templates, clusterTemplates));
    forall t
      ensures Has(found.value, t) <==> Has(all, t)
    {
    }
  }

  lemma {:induction false} HasAdded(all: Found, ref: Ref, inner: Found)
    ensures forall t :: Has(AddAll(AddRef(all, ref), inner), t) <==> Has(all, t) || t == ref || Has(inner, t)
  {
  }

  lemma {:induction false} NothingReachable(store: Store)
    ensures forall t :: !Reachable(store, [], t)
  {
  }

  lemma {:induction false} ReachSplit(store: Store, refs: seq<Ref>, more: seq<Ref>, t: Ref)
    ensures Reachable(store, refs + more, t) <==> Reachable(store, refs, t) || Reachable(store, more, t)
  {
    if chain :| IsChain(store, refs + more, chain, t) {
      assert IsChain(store, refs, chain, t) || IsChain(store, more, chain, t);
    }
    if chain :| IsChain(store, refs, chain, t) {
      assert IsChain(store, refs + more, chain, t);
    }
    if chain :| IsChain(store, more, chain, t) {
      assert IsChain(store, refs + more, chain, t);
    }
  }

  /** What one reference reaches: its template, and what that template's references reach. */
  lemma {:induction false} ReachOne(store: Store, ref: Ref, t: Ref)
    ensures Reachable(store, [ref], t) <==> t == ref || (ref in store && Reachable(store, store[ref], t))
  {
    if chain :| IsChain(store, [ref], chain, t) {
      if |chain| > 1 {
        assert IsChain(store, store[ref], chain[1..], t);
      }
    }
    if t == ref {
      assert IsChain(store, [ref], [ref], t);
    }
    if ref in store && Reachable(store, store[ref], t) {
      var chain :| IsChain(store, store[ref], chain, t);
      assert IsChain(store, [ref], [ref] + chain, t);
    }
  }

  // ---------------------------------------------------------------------------------------------
  // Bringing arguments together

  /** An argument may carry a value, or the place to read it from, or neither. */
  datatype Arg = Arg(name: string, value: Option<string>, from: Option<string>)

  function Names(args: seq<Arg>): (names: seq<string>)
    ensures |names| == |args| && forall i :: 0 <= i < |args| ==> names[i] == args[i].name
  {
    seq(|args|, i requires 0 <= i < |args| => args[i].name)
  }

  /** Two arguments of one name carry different values. */
  ghost predicate Conflict(args: seq<Arg>) {
    exists i, j :: 0 <= i < j < |args| && Clash(args[i], args[j])
  }

  predicate Clash(a: Arg, b: Arg) {
    a.name == b.name && a.value.Some? && b.value.Some? && a.value != b.value
  }

  /** The argument that stands for `name`: the first that carries a value or, when none does, the last. */
  function Chosen(args: seq<Arg>, name: string): Option<Arg> {
    if args == [] then None
    else
      var n := |args| - 1;
      var before := Chosen(args[..n], name);
      if args[n].name == name && (before == None || before.value.value == None) then Some(args[n]) else before
  }

  method AppendOrUpdate(combined: seq<Arg>, arg: Arg) returns (result: Option<seq<Arg>>)
    requires Distinct(Names(combined))
    ensures result == None <==> exists i :: 0 <= i < |combined| && Clash(combined[i], arg)
    ensures result.Some? && arg.name !in Names(combined) ==> result.value == combined + [arg]
    ensures result.Some? && arg.name in Names(combined) ==>
      var i := FirstAt(Names(combined), arg.name);
      result.value == if combined[i].value == None then combined[i := arg] else combined
  {
    for i := 0 to |combined|
      invariant forall k :: 0 <= k < i ==> combined[k].name != arg.name
    {
      if combined[i].name == arg.name {
        assert Names(combined)[i] == arg.name;
        if combined[i].value.Some? && arg.value.Some? && combined[i].value != arg.value {
          return None;
        }
        if combined[i].value == None {
          return Some(combined[i := arg]);
        }
        return Some(combined);
      }
    }
    return Some(combined + [arg]);
  }

  /** `combined` stands for all of `args`: one argument for each name, in the order the names first appear. */
  ghost predicate Flattened(args: seq<Arg>, combined: seq<Arg>) {
    && !Conflict(args)
    && Names(combined) == Dedup(Names(args))
    && forall k :: 0 <= k < |combined| ==> Chosen(args, combined[k].name) == Some(combined[k])
  }

  /** The chosen argument carries a value as soon as one of its name does. */
  lemma {:induction false} ChosenHasValue(args: seq<Arg>, name: string)
    ensures Chosen(args, name) == None <==> name !in Names(args)
    ensures Chosen(args, name).Some? ==> Chosen(args, name).value in args && Chosen(args, name).value.name == name
    ensures forall j :: 0 <= j < |args| && args[j].name == name && args[j].value.Some? ==>
      Chosen(args, name).Some? && Chosen(args, name).value.value.Some?
  {
    if args != [] {
      var n := |args| - 1;
      ChosenHasValue(args[..n], name);
      assert args == args[..n] + [args[n]];
      assert Names(args) == Names(args[..n]) + [args[n].name];
    }
  }

  /** When the chosen argument carries a value, it is the first of its name that does; otherwise it is the last. */
  lemma {:induction false} ChosenIsFirstValue(args: seq<Arg>, name: string) returns (i: nat)
    requires Chosen(args, name).Some?
    ensures i < |args| && args[i] == Chosen(args, name).value
    ensures args[i].value.Some? ==> forall j :: 0 <= j < i ==> args[j].name != name || args[j].value == None
    ensures args[i].value == None ==> forall j :: i < j < |args| ==> args[j].name != name
  {
    var n := |args| - 1;
    if Chosen(args[..n], name) == None || (args[n].name == name && Chosen(args[..n], name).value.value == None) {
      i := n;
      ChosenHasValue(args[..n], name);
      forall j | 0 <= j < n && args[j].name == name
        ensures args[j].value == None
      {
        assert Names(args[..n])[j] == name;
      }
    } else {
      i := ChosenIsFirstValue(args[..n], name);
    }
  }

  /** In a list without conflicts the chosen argument carries the value every argument of its name agrees on. */
  lemma {:induction false} CommonValue(args: seq<Arg>, combined: seq<Arg>, j: nat)
    requires Flattened(args, combined) && j < |args|
    ensures args[j].name in Names(combined)
    ensures args[j].value.Some? ==> combined[FirstAt(Names(combined), args[j].name)].value == args[j].value
  {
    hide Chosen, Dedup;
    var name := args[j].name;
    DedupKeepsFirsts(Names(args));
    assert Names(args)[j] == name;
    ChosenHasValue(args, name);
    if args[j].value.Some? {
      var k := FirstAt(Names(combined), name);
      assert Chosen(args, name) == Some(combined[k]);
      ChosenAgrees(args, name, j);
    }
  }

  lemma {:induction false} ChosenAgrees(args: seq<Arg>, name: string, j: nat)
    requires !Conflict(args) && j < |args| && args[j].name == name && args[j].value.Some?
    ensures Chosen(args, name).Some? && Chosen(args, name).value.value == args[j].value
  {
    hide Chosen;
    ChosenHasValue(args, name);
    var i :| 0 <= i < |args| && args[i] == Chosen(args, name).value;
    if i < j {
      assert !Clash(args[i], args[j]);
    } else if j < i {
      assert !Clash(args[j], args[i]);
    }
  }

  /** One argument clashes with the combined list exactly when it brings the first conflict; otherwise the updated
      list stands for one argument more. */
  lemma {:induction false} FlattenStep(args: seq<Arg>, combined: seq<Arg>, arg: Arg, result: Option<seq<Arg>>)
    requires Flattened(args, combined)
    requires result == None <==> exists i :: 0 <= i < |combined| && Clash(combined[i], arg)
    requires result.Some? && arg.name !in Names(combined) ==> result.value == combined + [arg]
    requires Distinct(Names(combined))
    requires result.Some? && arg.name in Names(combined) ==>
      var i := FirstAt(Names(combined), arg.name);
      result.value == if combined[i].value == None then combined[i := arg] else combined
    ensures result == None <==> Conflict(args + [arg])
    ensures result.Some? ==> Flattened(args + [arg], result.value)
  {
    hide Chosen, Dedup;
    if result == None {
      var i :| 0 <= i < |combined| && Clash(combined[i], arg);
      assert Chosen(args, combined[i].name) == Some(combined[i]);
      ChosenHasValue(args, combined[i].name);
      var j :| 0 <= j < |args| && args[j] == combined[i];
      assert Clash((args + [arg])[j], (args + [arg])[|args|]);
    } else {
      NoNewConflict(args, combined, arg);
      NamesGrow(args, combined, arg, result.value);
      forall k | 0 <= k < |result.value|
        ensures Chosen(args + [arg], result.value[k].name) == Some(result.value[k])
      {
        ChosenGrows(args, arg, result.value[k].name);
        UpdatedAt(args, combined, arg, result.value, k);
      }
    }
  }

  lemma {:induction false} NoNewConflict(args: seq<Arg>, combined: seq<Arg>, arg: Arg)
    requires Flattened(args, combined)
    requires forall i :: 0 <= i < |combined| ==> !Clash(combined[i], arg)
    ensures !Conflict(args + [arg])
  {
    hide Chosen, Dedup;
    forall i, j | 0 <= i < j < |args + [arg]|
      ensures !Clash((args + [arg])[i], (args + [arg])[j])
    {
      if j == |args| {
        CommonValue(args, combined, i);
        assert !Clash(combined[FirstAt(Names(combined), args[i].name)], arg);
      } else {
        assert !Clash(args[i], args[j]);
      }
    }
  }

  lemma {:induction false} NamesGrow(args: seq<Arg>, combined: seq<Arg>, arg: Arg, result: seq<Arg>)
    requires Names(combined) == Dedup(Names(args))
    requires result == combined + [arg] || Names(result) == Names(combined)
    requires result == combined + [arg] <==> arg.name !in Names(combined)
    ensures Names(result) == Dedup(Names(args + [arg]))
  {
    assert Names(args + [arg]) == Names(args) + [arg.name];
    assert (Names(args) + [arg.name])[..|args|] == Names(args);
    DedupKeepsFirsts(Names(args));
    if result == combined + [arg] {
      assert Names(result) == Names(combined) + [arg.name];
    }
  }

  lemma {:induction false} ChosenGrows(args: seq<Arg>, arg: Arg, name: string)
    ensures
      var before := Chosen(args, name);
      Chosen(args + [arg], name) ==
        if arg.name == name && (before == None || before.value.value == None) then Some(arg) else before
  {
    assert (args + [arg])[..|args|] == args;
  }

  lemma {:induction false} UpdatedAt(args: seq<Arg>, combined: seq<Arg>, arg: Arg, result: seq<Arg>, k: nat)
    requires Flattened(args, combined) && Distinct(Names(combined)) && k < |result|
    requires arg.name !in Names(combined) ==> result == combined + [arg]
    requires arg.name in Names(combined) ==>
      var i := FirstAt(Names(combined), arg.name);
      result == if combined[i].value == None then combined[i := arg] else combined
    ensures
      var before := Chosen(args, result[k].name);
      Some(result[k]) ==
        if arg.name == result[k].name && (before == None || before.value.value == None) then Some(arg) else before
  {
    hide Chosen, Dedup;
    if k < |combined| {
      assert Chosen(args, combined[k].name) == Some(combined[k]);
      if arg.name in Names(combined) {
        var i := FirstAt(Names(combined), arg.name);
        assert Chosen(args, combined[i].name) == Some(combined[i]);
        assert Names(combined)[k] == combined[k].name && Names(combined)[i] == arg.name;
      }
    } else {
      ChosenHasValue(args, arg.name);
      DedupKeepsFirsts(Names(args));
    }
  }

  function Concat(lists: seq<seq<Arg>>): seq<Arg> {
    if lists == [] then [] else Concat(lists[..|lists| - 1]) + lists[|lists| - 1]
  }

  /** Add the arguments of one template. */
  method AppendAll(combined: seq<Arg>, args: seq<Arg>, ghost before: seq<Arg>) returns (result: Option<seq<Arg>>)
    requires Flattened(before, combined)
    ensures result == None ==> Conflict(before + args)
    ensures result.Some? ==> Flattened(before + args, result.value)
  {
    hide Flattened, Conflict;
    result := Some(combined);
    assert before + [] == before;
    for i := 0 to |args|
      invariant result.Some? && Flattened(before + args[..i], result.value)
    {
      ghost var now := before + args[..i];
      assert Distinct(Names(result.value)) by {
        FlattenedDistinct(now, result.value);
      }
      var next := AppendOrUpdate(result.value, args[i]);
      FlattenStep(now, result.value, args[i], next);
      assert now + [args[i]] == before + args[..i + 1];
      if next == None {
        ConflictGrows(before + args[..i + 1], args[i + 1..]);
        assert before + args[..i + 1] + args[i + 1..] == before + args;
        return None;
      }
      result := next;
    }
    assert args[..|args|] == args;
  }

  lemma {:induction false} FlattenedDistinct(args: seq<Arg>, combined: seq<Arg>)
    requires Flattened(args, combined)
    ensures Distinct(Names(combined))
  {
    DedupKeepsFirsts(Names(args));
  }

  lemma {:induction false} ConflictGrows(args: seq<Arg>, more: seq<Arg>)
    requires Conflict(args)
    ensures Conflict(args + more)
  {
    var i, j :| 0 <= i < j < |args| && Clash(args[i], args[j]);
    assert Clash((args + more)[i], (args + more)[j]);
  }

  lemma {:induction false} ConcatGrows(lists: seq<seq<Arg>>, n: nat)
    requires n <= |lists|
    ensures exists more :: Concat(lists) == Concat(lists[..n]) + more
  {
    if n == |lists| {
      assert lists[..n] == lists;
      assert Concat(lists) == Concat(lists[..n]) + [];
    } else {
      var m := |lists| - 1;
      ConcatGrows(lists[..m], n);
      assert lists[..m][..n] == lists[..n];
      var more :| Concat(lists[..m]) == Concat(lists[..n]) + more;
      assert Concat(lists) == Concat(lists[..n]) + (more + lists[m]);
    }
  }

  /** Combine the arguments of all templates, those of the namespace first. It fails exactly when two arguments of
      one name carry different values. */
  method FlattenArgs(templates: seq<seq<Arg>>, clusterTemplates: seq<seq<Arg>>) returns (result: Option<seq<Arg>>)
    ensures result == None <==> Conflict(Concat(templates + clusterTemplates))
    ensures result.Some? ==> Flattened(Concat(templates + clusterTemplates), result.value)
  {
    var lists := templates + clusterTemplates;
    result := Some([]);
    hide Conflict;
    assert Flattened([], []) by { NothingFlattened(); }
    for i := 0 to |lists|
      invariant result.Some? && Flattened(Concat(lists[..i]), result.value)
    {
      assert lists[..i + 1][..i] == lists[..i];
      var next := AppendAll(result.value, lists[i], Concat(lists[..i]));
      if next == None {
        ConcatGrows(lists, i + 1);
        var more :| Concat(lists) == Concat(lists[..i + 1]) + more;
        ConflictGrows(Concat(lists[..i + 1]), more);
        return None;
      }
      result := next;
    }
    assert lists[..|lists|] == lists;
  }

  lemma {:induction false} NothingFlattened()
    ensures Flattened([], [])
  {
  }

  // ---------------------------------------------------------------------------------------------
  // Filling in arguments

  /** The value given last for `name`. */
  function GivenValue(incoming: seq<Arg>, name: string): Option<string> {
    if incoming == [] then None
    else
      var n := |incoming| - 1;
      if incoming[n].name == name && incoming[n].value.Some? then incoming[n].value else GivenValue(incoming[..n], name)
  }

  /** The place to read from given last for `name`, among the arguments that carry no value. */
  function GivenSource(incoming: seq<Arg>, name: string): Option<string> {
    if incoming == [] then None
    else
      var n := |incoming| - 1;
      if incoming[n].name == name && incoming[n].value == None && incoming[n].from.Some? then incoming[n].from
      else GivenSource(incoming[..n], name)
  }

  function Overridden(a: Arg, incoming: seq<Arg>): Arg {
    var value, source := GivenValue(incoming, a.name), GivenSource(incoming, a.name);
    Arg(a.name, if value.Some? then value else a.value, if source.Some? then source else a.from)
  }

  /** What argument `k` of a template becomes: only the first of its name can be filled in. */
  function MergedAt(templateArgs: seq<Arg>, incoming: seq<Arg>, k: nat): Arg
    requires k < |templateArgs|
  {
    if templateArgs[k].name !in Names(templateArgs)[..k] then Overridden(templateArgs[k], incoming) else templateArgs[k]
  }

  /** An argument with neither value nor source. */
  predicate IsEmpty(a: Arg) {
    a == Arg(a.name, None, None)
  }

  method FindArg(name: string, args: seq<Arg>) returns (i: int)
    ensures i < 0 ==> name !in Names(args)
    ensures i >= 0 ==> i < |args| && args[i].name == name && name !in Names(args)[..i]
  {
    for k := 0 to |args|
      invariant forall j :: 0 <= j < k ==> args[j].name != name
    {
      if args[k].name == name {
        return k;
      }
    }
    return -1;
  }

  /** Fill the arguments of a template in from outside: the last value given wins, names that the template does not
      know are ignored, and it fails exactly when an argument is left with neither value nor source. */
  method MergeArgs(incoming: seq<Arg>, templateArgs: seq<Arg>) returns (result: Option<seq<Arg>>)
    ensures result == None <==> exists k :: 0 <= k < |templateArgs| && IsEmpty(MergedAt(templateArgs, incoming, k))
    ensures result.Some? ==> |result.value| == |templateArgs|
    ensures result.Some? ==>
      forall k :: 0 <= k < |templateArgs| ==> result.value[k] == MergedAt(templateArgs, incoming, k)
  {
    hide Overridden;
    var newArgs := templateArgs;
    forall k | 0 <= k < |templateArgs|
      ensures MergedAt(templateArgs, [], k) == templateArgs[k]
    {
      OverriddenByNothing(templateArgs[k]);
    }
    for n := 0 to |incoming|
      invariant |newArgs| == |templateArgs| && Names(newArgs) == Names(templateArgs)
      invariant forall k :: 0 <= k < |templateArgs| ==> newArgs[k] == MergedAt(templateArgs, incoming[..n], k)
    {
      var arg := incoming[n];
      assert incoming[..n + 1] == incoming[..n] + [arg];
      forall k | 0 <= k < |templateArgs|
        ensures MergedAt(templateArgs, incoming[..n + 1], k) ==
          if templateArgs[k].name == arg.name && arg.name !in Names(templateArgs)[..k] then Filled(newArgs[k], arg)
          else newArgs[k]
      {
        OverriddenByOneMore(templateArgs[k], incoming[..n], arg);
      }
      var i := FindArg(arg.name, newArgs);
      forall k | 0 <= k < |templateArgs|
        ensures templateArgs[k].name == arg.name && arg.name !in Names(templateArgs)[..k] <==> k == i
      {
        assert Names(newArgs)[k] == templateArgs[k].name;
        if i >= 0 && i < k {
          assert Names(templateArgs)[..k][i] == arg.name;
        } else if k < i {
          assert Names(newArgs)[..i][k] == Names(newArgs)[k];
        }
      }
      if i >= 0 {
        newArgs := newArgs[i := Filled(newArgs[i], arg)];
      }
      assert Names(newArgs) == Names(templateArgs);
    }
    assert incoming[..|incoming|] == incoming;
    for k := 0 to |newArgs|
      invariant forall j :: 0 <= j < k ==> !IsEmpty(newArgs[j])
    {
      if newArgs[k].value == None && newArgs[k].from == None {
        return None;
      }
    }
    return Some(newArgs);
  }

  /** One incoming argument applied to the argument of its name. */
  function Filled(a: Arg, given: Arg): Arg {
    if given.value.Some? then a.(value := given.value) else if given.from.Some? then a.(from := given.from) else a
  }

  lemma {:induction false} OverriddenByNothing(a: Arg)
    ensures Overridden(a, []) == a
  {
  }

  lemma {:induction false} OverriddenByOneMore(a: Arg, incoming: seq<Arg>, given: Arg)
    ensures Overridden(a, incoming + [given]) ==
      if a.name == given.name then Filled(Overridden(a, incoming), given) else Overridden(a, incoming)
  {
    assert (incoming + [given])[..|incoming|] == incoming;
  }

  /** The argument at `n` is the last incoming one of this name that carries a value. */
  predicate IsLastValue(incoming: seq<Arg>, name: string, n: nat) {
    && n < |incoming| && incoming[n].name == name && incoming[n].value.Some?
    && forall j :: n < j < |incoming| ==> incoming[j].name != name || incoming[j].value == None
  }

  /** The argument at `n` is the last incoming one of this name that carries a source and no value. */
  predicate IsLastSource(incoming: seq<Arg>, name: string, n: nat) {
    && n < |incoming| && incoming[n].name == name && incoming[n].value == None && incoming[n].from.Some?
    && forall j :: n < j < |incoming| ==>
         incoming[j].name != name || incoming[j].value.Some? || incoming[j].from == None
  }

  lemma {:induction false} ValueIsLast(incoming: seq<Arg>, name: string)
    ensures forall n: nat :: IsLastValue(incoming, name, n) ==> GivenValue(incoming, name) == incoming[n].value
    ensures GivenValue(incoming, name).Some? ==> exists n: nat :: IsLastValue(incoming, name, n)
  {
    if incoming != [] {
      var last := |incoming| - 1;
      var rest := incoming[..last];
      ValueIsLast(rest, name);
      if incoming[last].name == name && incoming[last].value.Some? {
        assert IsLastValue(incoming, name, last);
      } else {
        forall n: nat
          ensures IsLastValue(incoming, name, n) <==> IsLastValue(rest, name, n)
        {
        }
      }
    }
  }

  lemma {:induction false} SourceIsLast(incoming: seq<Arg>, name: string)
    ensures forall n: nat :: IsLastSource(incoming, name, n) ==> GivenSource(incoming, name) == incoming[n].from
    ensures GivenSource(incoming, name).Some? ==> exists n: nat :: IsLastSource(incoming, name, n)
  {
    if incoming != [] {
      var last := |incoming| - 1;
      var rest := incoming[..last];
      SourceIsLast(rest, name);
      if incoming[last].name == name && incoming[last].value == None && incoming[last].from.Some? {
        assert IsLastSource(incoming, name, last);
      } else {
        forall n: nat
          ensures IsLastSource(incoming, name, n) <==> IsLastSource(rest, name, n)
        {
        }
      }
    }
  }

  /** What an argument of a template becomes: one behind another of its name stays as it is; otherwise it has the last
      value given for its name, and the last source given without a value, as far as any were given. */
  lemma {:induction false} MergedIsLastGiven(templateArgs: seq<Arg>, incoming: seq<Arg>, k: nat)
    requires k < |templateArgs|
    ensures
      var a, merged := templateArgs[k], MergedAt(templateArgs, incoming, k);
      if exists j :: 0 <= j < k && templateArgs[j].name == a.name then merged == a
      else
        && merged.name == a.name
        && (forall n: nat :: IsLastValue(incoming, a.name, n) ==> merged.value == incoming[n].value)
        && ((forall n: nat :: !IsLastValue(incoming, a.name, n)) ==> merged.value == a.value)
        && (forall n: nat :: IsLastSource(incoming, a.name, n) ==> merged.from == incoming[n].from)
        && ((forall n: nat :: !IsLastSource(incoming, a.name, n)) ==> merged.from == a.from)
  {
    hide IsLastValue, IsLastSource, GivenValue, GivenSource;
    var a := templateArgs[k];
    ValueIsLast(incoming, a.name);
    SourceIsLast(incoming, a.name);
    LastIsGiven(incoming, a.name);
    if j :| 0 <= j < k && templateArgs[j].name == a.name {
      assert Names(templateArgs)[..k][j] == a.name;
    } else {
      assert forall j :: 0 <= j < k ==> Names(templateArgs)[..k][j] == templateArgs[j].name;
    }
  }

  lemma {:induction false} LastIsGiven(incoming: seq<Arg>, name: string)
    ensures forall n: nat :: IsLastValue(incoming, name, n) ==> n < |incoming| && incoming[n].value.Some?
    ensures forall n: nat :: IsLastSource(incoming, name, n) ==> n < |incoming| && incoming[n].from.Some?
  {
  }
}
