/** The listener registry of one Vega view namespace as a sequence of (name, handler)
    entries, and what registering and removing a whole handler table does to it. */
module Listeners {
  import opened Values

  /** The registry after `add…Listener(name, handler)` is called once per table entry, in entry order. */
  function Registered(registry: seq<Listener>, table: seq<Listener>): (r: seq<Listener>)
    ensures r == registry + table
    decreases |table|
  {
    if table == [] then registry
    else
      assert table == [table[0]] + table[1..];
      Registered(registry + [table[0]], table[1..])
  }

  /** The registry after `remove…Listener(l.name, l.handler)`: every entry with that name and
      that same handler is dropped, the others keep their order. */
  function RemoveListener(registry: seq<Listener>, l: Listener): (r: seq<Listener>)
    ensures forall x :: x in r <==> x in registry && x != l
    ensures |r| <= |registry|
    // the kept entries keep their order and their multiplicity
    ensures r == Without(registry, [l])
  {
    if registry == [] then []
    else if registry[0] == l then RemoveListener(registry[1..], l)
    else [registry[0]] + RemoveListener(registry[1..], l)
  }

  /** The registry after `remove…Listener` is called once per table entry, in entry order. */
  function Unregistered(registry: seq<Listener>, table: seq<Listener>): (r: seq<Listener>)
    ensures forall x :: x in r <==> x in registry && x !in table
    decreases |table|
  {
    if table == [] then registry
    else Unregistered(RemoveListener(registry, table[0]), table[1..])
  }

  /** The effect on namespace `ns` of calling view method `m` once per table entry. */
  function Invoked(m: ListenerMethod, ns: Namespace, registry: seq<Listener>, table: seq<Listener>): (r: seq<Listener>)
    ensures m.Target() != ns ==> r == registry
    ensures m.Target() == ns && m.Adds() ==> r == registry + table
    ensures m.Target() == ns && !m.Adds() ==> forall x :: x in r <==> x in registry && x !in table
  {
    if m.Target() != ns then registry
    else if m.Adds() then Registered(registry, table)
    else Unregistered(registry, table)
  }

  /** The entries of `registry` that are not in `table`, in their order: the reference
      definition that removal is compared with. */
  function Without(registry: seq<Listener>, table: seq<Listener>): seq<Listener>
  {
    if registry == [] then []
    else if registry[0] in table then Without(registry[1..], table)
    else [registry[0]] + Without(registry[1..], table)
  }

  lemma {:induction false} WithoutAppend(a: seq<Listener>, b: seq<Listener>, table: seq<Listener>)
    ensures Without(a + b, table) == Without(a, table) + Without(b, table)
    decreases |a|
  {
    if a == [] {
      assert a + b == b;
    } else {
      assert (a + b)[0] == a[0] && (a + b)[1..] == a[1..] + b;
      WithoutAppend(a[1..], b, table);
    }
  }

  lemma {:induction false} WithoutCovered(registry: seq<Listener>, table: seq<Listener>)
    requires forall x :: x in registry ==> x in table
    ensures Without(registry, table) == []
    decreases |registry|
  {
    if registry != [] {
      WithoutCovered(registry[1..], table);
    }
  }

  lemma {:induction false} WithoutDisjoint(registry: seq<Listener>, table: seq<Listener>)
    requires forall x :: x in registry ==> x !in table
    ensures Without(registry, table) == registry
    decreases |registry|
  {
    if registry != [] {
      WithoutDisjoint(registry[1..], table);
      assert registry == [registry[0]] + registry[1..];
    }
  }

  /** Removing `l` first and then the rest of the table is removing the whole table. */
  lemma {:induction false} WithoutRemove(registry: seq<Listener>, l: Listener, rest: seq<Listener>)
    ensures Without(RemoveListener(registry, l), rest) == Without(registry, [l] + rest)
    decreases |registry|
  {
    if registry != [] {
      WithoutRemove(registry[1..], l, rest);
      if registry[0] != l {
        var tail := RemoveListener(registry[1..], l);
        assert ([registry[0]] + tail)[0] == registry[0] && ([registry[0]] + tail)[1..] == tail;
        assert registry[0] in rest <==> registry[0] in [l] + rest;
      }
    }
  }

  /** Removing a table entry by entry keeps exactly the entries outside the table, in order. */
  lemma {:induction false} UnregisteredIsWithout(registry: seq<Listener>, table: seq<Listener>)
    ensures Unregistered(registry, table) == Without(registry, table)
    decreases |table|
  {
    if table == [] {
      WithoutDisjoint(registry, table);
    } else {
      UnregisteredIsWithout(RemoveListener(registry, table[0]), table[1..]);
      WithoutRemove(registry, table[0], table[1..]);
      assert [table[0]] + table[1..] == table;
    }
  }

  /** Unregistering one more entry at the end of the table: the step of the
      `_invokeEventMethod` loop. */
  lemma {:induction false} UnregisteredSnoc(registry: seq<Listener>, table: seq<Listener>, l: Listener)
    ensures Unregistered(registry, table + [l]) == RemoveListener(Unregistered(registry, table), l)
    decreases |table|
  {
    if table != [] {
      assert (table + [l])[0] == table[0] && (table + [l])[1..] == table[1..] + [l];
      UnregisteredSnoc(RemoveListener(registry, table[0]), table[1..], l);
    }
  }

  /** Binding a table and then unbinding the same table has the effect of unbinding it alone:
      nothing the binding added survives, and the rest of the registry keeps its order. */
  lemma {:induction false} BindThenUnbind(registry: seq<Listener>, table: seq<Listener>)
    ensures Unregistered(Registered(registry, table), table) == Unregistered(registry, table)
  {
    UnregisteredIsWithout(registry + table, table);
    UnregisteredIsWithout(registry, table);
    WithoutAppend(registry, table, table);
    WithoutCovered(table, table);
  }

  /** When none of the table's pairs was registered before, binding and then unbinding it
      restores the registry exactly. */
  lemma {:induction false} BindThenUnbindRestores(registry: seq<Listener>, table: seq<Listener>)
    requires forall x :: x in registry ==> x !in table
    ensures Unregistered(Registered(registry, table), table) == registry
  {
    BindThenUnbind(registry, table);
    UnregisteredIsWithout(registry, table);
    WithoutDisjoint(registry, table);
  }

  /** The same two facts for any pair of add/remove methods that target the same namespace. */
  lemma {:induction false} InvokedRoundTrip(add: ListenerMethod, remove: ListenerMethod, ns: Namespace,
                                            registry: seq<Listener>, table: seq<Listener>)
    requires add.Adds() && !remove.Adds() && add.Target() == remove.Target()
    requires forall x :: x in registry ==> x !in table
    ensures Invoked(remove, ns, Invoked(add, ns, registry, table), table) == registry
  {
    if add.Target() == ns {
      BindThenUnbindRestores(registry, table);
    }
  }

  /** Each loop step of `_invokeEventMethod` extends the table prefix by one entry. */
  lemma InvokedSnoc(m: ListenerMethod, ns: Namespace, registry: seq<Listener>, table: seq<Listener>, l: Listener)
    ensures Invoked(m, ns, registry, table + [l]) ==
      if m.Target() != ns then Invoked(m, ns, registry, table)
      else if m.Adds() then Invoked(m, ns, registry, table) + [l]
      else RemoveListener(Invoked(m, ns, registry, table), l)
  {
    if m.Target() == ns && !m.Adds() {
      UnregisteredSnoc(registry, table, l);
    }
  }
}
