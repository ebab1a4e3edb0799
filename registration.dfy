/**
 * The registration tables of a module assembly, stated as functions over the
 * sequences that stand for them: the five insertion-ordered maps with
 * register-once semantics, the service list, and the specification-based
 * selectors.
 */
module Registration {
  import opened Wrappers
  import opened JavaLang
  import opened Collections
  import opened ServiceIdentities

  // ----- Insertion-ordered tables keyed by type (values, transients, entities, objects, imported services)

  /**
   * The key order of a LinkedHashMap after `put` has been called, in order, for
   * every type of `types` that is not yet a key (the loop of values(Class...)).
   */
  function Register(table: seq<ClassName>, types: seq<ClassName>): (table': seq<ClassName>)
    decreases |types|
  {
    if types == [] then table
    else Register(if types[0] in table then table else table + [types[0]], types[1..])
  }

  /**
   * Registration keeps the existing entries in place, adds exactly the types not
   * yet registered, and keeps the table free of duplicates.
   */
  lemma {:induction false} RegisterSpec(table: seq<ClassName>, types: seq<ClassName>)
    ensures |Register(table, types)| >= |table|
    ensures Register(table, types)[..|table|] == table
    ensures forall t :: t in Register(table, types) <==> t in table || t in types
    ensures Distinct(table) ==> Distinct(Register(table, types))
    decreases |types|
  {
    if types != [] {
      var next := if types[0] in table then table else table + [types[0]];
      RegisterSpec(next, types[1..]);
      assert next[..|table|] == table;
      assert Register(table, types)[..|table|] == next[..|next|][..|table|];
      forall t
        ensures t in Register(table, types) <==> t in table || t in types
      {
        assert t in types <==> t == types[0] || t in types[1..];
      }
    }
  }

  /**
   * Registering one more type after `types`: it is appended at the end exactly
   * when it is not yet registered, so new entries keep argument order.
   */
  lemma {:induction false} RegisterSnoc(table: seq<ClassName>, types: seq<ClassName>, t: ClassName)
    ensures Register(table, types + [t])
         == (if t in Register(table, types) then Register(table, types) else Register(table, types) + [t])
    decreases |types|
  {
    if types == [] {
      assert types + [t] == [t];
      assert [t][1..] == [];
    } else {
      var next := if types[0] in table then table else table + [types[0]];
      assert (types + [t])[0] == types[0];
      assert (types + [t])[1..] == types[1..] + [t];
      RegisterSnoc(next, types[1..], t);
    }
  }

  /** Registering only types that are already registered leaves the table unchanged. */
  lemma {:induction false} RegisterKnownTypes(table: seq<ClassName>, types: seq<ClassName>)
    requires forall k :: 0 <= k < |types| ==> types[k] in table
    ensures Register(table, types) == table
    decreases |types|
  {
    if types != [] {
      RegisterKnownTypes(table, types[1..]);
    }
  }

  /** Registering one new type appends exactly that type. */
  lemma RegisterNewType(table: seq<ClassName>, t: ClassName)
    requires t !in table
    ensures Register(table, [t]) == table + [t]
  {
    assert [t][1..] == [];
  }

  // ----- The service list

  /** AddServices: one fresh declaration per argument, always appended. */
  function NewServiceDecls(types: seq<ClassName>): (decls: seq<ServiceDecl>)
    ensures |decls| == |types|
    ensures forall k :: 0 <= k < |types| ==> decls[k] == ServiceDecl(types[k], None)
  {
    seq(|types|, k requires 0 <= k < |types| => ServiceDecl(types[k], None))
  }

  /**
   * The indices, in list order, of the service declarations that the assembly
   * specification for `t` is satisfied by (Iterables.filter over the list).
   */
  function Matching(services: seq<ServiceDecl>, t: ClassName, matches: (ClassName, ClassName) -> bool): (ix: seq<nat>)
    ensures forall k :: 0 <= k < |ix| ==> ix[k] < |services| && matches(services[ix[k]].serviceType, t)
    ensures forall i :: 0 <= i < |services| && matches(services[i].serviceType, t) ==> i in ix
    ensures forall a, b :: 0 <= a < b < |ix| ==> ix[a] < ix[b]
    decreases |services|
  {
    if services == [] then []
    else
      var init := services[..|services| - 1];
      Matching(init, t, matches) + (if matches(services[|services| - 1].serviceType, t) then [|services| - 1] else [])
  }

  /**
   * services(Class...): for each type in turn, the existing declarations that
   * match it if there are any, otherwise a new declaration appended to the
   * list. Returns the final list and the indices of the declarations handed out.
   */
  function Services(services: seq<ServiceDecl>, handles: seq<nat>, types: seq<ClassName>,
                    matches: (ClassName, ClassName) -> bool): (r: (seq<ServiceDecl>, seq<nat>))
    decreases |types|
  {
    if types == [] then (services, handles)
    else
      var found := Matching(services, types[0], matches);
      if found != [] then Services(services, handles + found, types[1..], matches)
      else Services(services + [ServiceDecl(types[0], None)], handles + [|services|], types[1..], matches)
  }

  /**
   * The matching declarations of each type of `types`, one type after the
   * other, in the order of `types`.
   */
  function AllMatches(services: seq<ServiceDecl>, types: seq<ClassName>,
                      matches: (ClassName, ClassName) -> bool): (ix: seq<nat>)
    ensures forall k :: 0 <= k < |ix| ==> ix[k] < |services|
    decreases |types|
  {
    if types == [] then [] else Matching(services, types[0], matches) + AllMatches(services, types[1..], matches)
  }

  /** One step of services(Class...) for a type that already matches. */
  lemma ServicesMatchedStep(services: seq<ServiceDecl>, handles: seq<nat>, types: seq<ClassName>,
                            matches: (ClassName, ClassName) -> bool)
    requires types != [] && Matching(services, types[0], matches) != []
    ensures Services(services, handles, types, matches)
         == Services(services, handles + Matching(services, types[0], matches), types[1..], matches)
  {
  }

  /** The induction behind ServicesReuseMatches: the list and the handles. */
  lemma {:induction false} ServicesOfMatchedTypes(services: seq<ServiceDecl>, handles: seq<nat>, types: seq<ClassName>,
                                                  matches: (ClassName, ClassName) -> bool)
    requires forall k :: 0 <= k < |types| ==> Matching(services, types[k], matches) != []
    ensures Services(services, handles, types, matches).0 == services
    ensures Services(services, handles, types, matches).1 == handles + AllMatches(services, types, matches)
    decreases |types|
  {
    if types == [] {
      assert handles + [] == handles;
    } else {
      var found := Matching(services, types[0], matches);
      var rest := AllMatches(services, types[1..], matches);
      ServicesMatchedStep(services, handles, types, matches);
      ServicesOfMatchedTypes(services, handles + found, types[1..], matches);
      AppendAssoc(handles, found, rest);
    }
  }

  /**
   * When every requested type already matches a declaration, services(Class...)
   * leaves the list unchanged and hands out, after the handles it already had,
   * the matching declarations of each type in turn.
   */
  lemma ServicesReuseMatches(services: seq<ServiceDecl>, handles: seq<nat>, types: seq<ClassName>,
                             matches: (ClassName, ClassName) -> bool)
    requires forall k :: 0 <= k < |types| ==> Matching(services, types[k], matches) != []
    requires forall k :: 0 <= k < |handles| ==> handles[k] < |services|
    ensures Services(services, handles, types, matches).0 == services
    ensures Services(services, handles, types, matches).1 == handles + AllMatches(services, types, matches)
    ensures forall k :: 0 <= k < |Services(services, handles, types, matches).1| ==>
              Services(services, handles, types, matches).1[k] < |services|
  {
    ServicesOfMatchedTypes(services, handles, types, matches);
    var all := AllMatches(services, types, matches);
    forall k | 0 <= k < |handles + all|
      ensures (handles + all)[k] < |services|
    {
      if k >= |handles| {
        assert (handles + all)[k] == all[k - |handles|];
      }
    }
  }

  /** A single type that already matches: the list is unchanged and exactly its matches are handed out. */
  lemma ServicesExistingType(services: seq<ServiceDecl>, t: ClassName, matches: (ClassName, ClassName) -> bool)
    requires Matching(services, t, matches) != []
    ensures Services(services, [], [t], matches) == (services, Matching(services, t, matches))
  {
    assert [t][1..] == [];
    assert [] + Matching(services, t, matches) == Matching(services, t, matches);
  }

  /** `longer` is `shorter` followed by declarations that have no identity yet. */
  ghost predicate AppendsUnidentified(longer: seq<ServiceDecl>, shorter: seq<ServiceDecl>)
  {
    && |longer| >= |shorter|
    && longer[..|shorter|] == shorter
    && forall k :: |shorter| <= k < |longer| ==> longer[k].identity.None?
  }

  /** services(Class...) only ever appends to the list, and only declarations without identity. */
  lemma {:induction false} ServicesOnlyAppend(services: seq<ServiceDecl>, handles: seq<nat>, types: seq<ClassName>,
                                              matches: (ClassName, ClassName) -> bool)
    ensures AppendsUnidentified(Services(services, handles, types, matches).0, services)
    decreases |types|
  {
    if types != [] {
      var found := Matching(services, types[0], matches);
      if found != [] {
        ServicesOnlyAppend(services, handles + found, types[1..], matches);
      } else {
        var next := services + [ServiceDecl(types[0], None)];
        ServicesOnlyAppend(next, handles + [|services|], types[1..], matches);
        var r := Services(next, handles + [|services|], types[1..], matches).0;
        assert r[..|services|] == r[..|next|][..|services|];
        assert next[..|services|] == services;
      }
    }
  }

  /** A single type that no existing declaration matches gets exactly one new declaration. */
  lemma ServicesNewType(services: seq<ServiceDecl>, t: ClassName, matches: (ClassName, ClassName) -> bool)
    requires Matching(services, t, matches) == []
    ensures Services(services, [], [t], matches).0 == services + [ServiceDecl(t, None)]
    ensures Services(services, [], [t], matches).1 == [|services|]
  {
    assert [t][1..] == [];
  }

  // ----- Specification-based selectors

  /** The elements of `xs` that satisfy `p`, in their order in `xs`. */
  function Filter<T>(xs: seq<T>, p: T -> bool): (ys: seq<T>)
    decreases |xs|
  {
    if xs == [] then []
    else Filter(xs[..|xs| - 1], p) + (if p(xs[|xs| - 1]) then [xs[|xs| - 1]] else [])
  }

  /**
   * A selector returns exactly the satisfying entries, never more of them than
   * the table holds, and in registration order: selecting over two consecutive
   * parts of a table selects over each part in turn.
   */
  lemma {:induction false} FilterSpec<T>(xs: seq<T>, ys: seq<T>, p: T -> bool)
    ensures forall x :: x in Filter(xs, p) <==> x in xs && p(x)
    ensures |Filter(xs, p)| <= |xs|
    ensures Filter(xs + ys, p) == Filter(xs, p) + Filter(ys, p)
    decreases |ys|
  {
    if ys == [] {
      assert xs + ys == xs;
      FilterMembers(xs, p);
    } else {
      var init := ys[..|ys| - 1];
      FilterSpec(xs, init, p);
      assert (xs + ys)[..|xs + ys| - 1] == xs + init;
      assert (xs + ys)[|xs + ys| - 1] == ys[|ys| - 1];
    }
  }

  lemma {:induction false} FilterMembers<T>(xs: seq<T>, p: T -> bool)
    ensures forall x :: x in Filter(xs, p) <==> x in xs && p(x)
    ensures |Filter(xs, p)| <= |xs|
    decreases |xs|
  {
    if xs != [] {
      var init := xs[..|xs| - 1];
      FilterMembers(init, p);
      assert xs == init + [xs[|xs| - 1]];
    }
  }

  /** The loop of the selectors: for each entry, add it when the specification is satisfied. */
  method Select<T>(xs: seq<T>, p: T -> bool) returns (r: seq<T>)
    ensures r == Filter(xs, p)
  {
    r := [];
    var i := 0;
    while i < |xs|
      invariant 0 <= i <= |xs|
      invariant r == Filter(xs[..i], p)
    {
      assert xs[..i + 1][..i] == xs[..i];
      if p(xs[i]) {
        r := r + [xs[i]];
      }
      i := i + 1;
    }
    assert xs[..|xs|] == xs;
  }

  /** The loop of values(Class...) and its siblings, over one keyed table. */
  method RegisterTypes(table: seq<ClassName>, types: seq<ClassName>) returns (table': seq<ClassName>, handles: seq<ClassName>)
    ensures table' == Register(table, types)
    ensures handles == types
  {
    table' := table;
    handles := [];
    var i := 0;
    while i < |types|
      invariant 0 <= i <= |types|
      invariant Register(table', types[i..]) == Register(table, types)
      invariant handles == types[..i]
    {
      assert types[i..][1..] == types[i + 1..];
      if types[i] in table' {
        handles := handles + [types[i]];
      } else {
        table' := table' + [types[i]];
        handles := handles + [types[i]];
      }
      i := i + 1;
    }
    assert types[..|types|] == types;
  }
}
