/** The transactional route journal: adding a list of routes to the kernel table one by one,
    rolling back on failure, and undoing a finished transaction. */
module RouteJournal {
  import opened Bytes
  import opened IpNets

  datatype Route = Route(dest: Net, via: Option<Addr>, dev: string)

  // The kernel identifies a route by its destination block and its metric.
  datatype Key = Key(dest: Net, metric: nat)

  datatype Hop = Hop(via: Option<Addr>, dev: string)

  type Table = map<Key, Hop>

  // Two spellings of one block are one destination: `base` becomes the block's number.
  function Canonical(net: Net): Net {
    if net.len <= Width(net.family) then net.(base := BlockIndex(net, net.base)) else net
  }

  function KeyOf(r: Route): Key { Key(Canonical(r.dest), 0) }

  function HopOf(r: Route): Hop { Hop(r.via, r.dev) }

  // `ip route add` without a metric: refused with "File exists" when the slot is taken.
  function Added(t: Table, r: Route): Table {
    if KeyOf(r) in t then t else t[KeyOf(r) := HopOf(r)]
  }

  // The entries an `ip route del` for `r` may mean: a gateway that is not given fits any.
  predicate Fits(t: Table, k: Key, r: Route) {
    k in t && k.dest == Canonical(r.dest) && t[k].dev == r.dev && (r.via.None? || t[k].via == r.via)
  }

  // The kernel removes the entry that fits with the lowest metric.
  ghost predicate Deleted(t: Table, r: Route, t': Table) {
    if exists k :: Fits(t, k, r)
    then exists k :: Fits(t, k, r) && (forall l :: Fits(t, l, r) ==> k.metric <= l.metric) && t' == t - {k}
    else t' == t
  }

  // The words a command leaves behind when it fails. The rest of the message is fixed text
  // and addresses, in which the word looked for cannot occur.
  predicate SaysExists(dev: string, stderr: string) {
    Mentions(dev, "exists") || Mentions(stderr, "exists")
  }

  predicate Mentions(text: string, word: string) {
    exists i :: 0 <= i <= |text| && OccursAt(text, word, i)
  }

  predicate OccursAt(text: string, word: string, i: nat) {
    i + |word| <= |text| && text[i..i + |word|] == word
  }

  // ----- The imperative code -----

  class Kernel {
    var table: Table

    // run_ip_ignore_exists on a route add. `fault` is the text of a refusal that has
    // nothing to do with the slot being taken. The answer is None for an error, otherwise
    // whether the route was added.
    method AddIgnoringExists(r: Route, fault: Option<string>) returns (answer: Option<bool>)
      modifies this
      ensures fault.None? ==> table == Added(old(table), r) && answer == Some(KeyOf(r) !in old(table))
      ensures fault.Some? ==> table == old(table) &&
                              answer == if SaysExists(r.dev, fault.value) then Some(false) else None
    {
      if fault.Some? {
        return if SaysExists(r.dev, fault.value) then Some(false) else None;
      }
      if KeyOf(r) in table {
        return Some(false);
      }
      table := table[KeyOf(r) := HopOf(r)];
      return Some(true);
    }

    // A delete command that takes effect or fails.
    method Del(r: Route, ok: bool)
      modifies this
      ensures if ok then Deleted(old(table), r, table) else table == old(table)
    {
      if !ok {
        return;
      }
      var fitting := set k | k in table && Fits(table, k, r);
      if fitting != {} {
        LowestExists(fitting);
        var k :| k in fitting && forall l :: l in fitting ==> k.metric <= l.metric;
        assert Fits(table, k, r);
        table := table - {k};
      } else {
        assert forall k :: Fits(table, k, r) ==> k in fitting;
      }
    }

    // restore_added: delete in reverse order, going on when a command fails; `oks(i)` is the outcome
    // for the i-th route.
    method RestoreAdded(added: seq<Route>, oks: nat -> bool)
      modifies this
      ensures Undone(old(table), added, oks, table)
    {
      var i := |added|;
      assert added[..i] == added;
      while i > 0
        invariant 0 <= i <= |added|
        invariant forall t :: Undone(table, added[..i], oks, t) ==> Undone(old(table), added, oks, t)
      {
        i := i - 1;
        ghost var before := table;
        Del(added[i], oks(i));
        assert added[..i + 1][..i] == added[..i];
      }
      assert Undone(table, [], oks, table);
    }

    // apply_journal: `faults[k]` is the refusal the k-th command meets, if any, and `oks` are the
    // outcomes of the deletions if it has to roll back. It fails exactly when a refusal is reported.
    // Then the table is the starting one and what the rollback could not delete.
    method ApplyJournal(journal: seq<Route>, faults: seq<Option<string>>, oks: nat -> bool)
      returns (result: Option<seq<Route>>)
      requires |faults| == |journal|
      modifies this
      ensures result.None? <==> exists k :: 0 <= k < |journal| && Reported(journal[k], faults[k])
      ensures result.None? ==>
                exists k :: 0 <= k < |journal| && FirstReported(journal, faults, k) &&
                            table == Left(old(table), AddedBy(old(table), journal[..k], faults[..k]), oks)
      ensures result.Some? ==> table == Installed(old(table), journal, faults)
      ensures result.Some? ==> result.value == AddedBy(old(table), journal, faults)
    {
      var added: seq<Route> := [];
      assert journal[..|journal|] == journal && faults[..|faults|] == faults;
      for k := 0 to |journal|
        invariant added == AddedBy(old(table), journal[..k], faults[..k])
        invariant table == Installed(old(table), journal[..k], faults[..k])
        invariant forall m :: 0 <= m < k ==> !Reported(journal[m], faults[m])
      {
        var answer := AddIgnoringExists(journal[k], faults[k]);
        assert journal[..k + 1][..k] == journal[..k] && faults[..k + 1][..k] == faults[..k];
        match answer
        case Some(true) =>
          added := added + [journal[k]];
        case Some(false) =>
        case None =>
          ghost var reached := table;
          AddedExtends(old(table), journal[..k], faults[..k]);
          RestoreAdded(added, oks);
          UndoLeaves(old(table), added, oks, reached, table);
          assert FirstReported(journal, faults, k);
          return None;
      }
      return Some(added);
    }
  }

  lemma {:induction false} LowestExists(s: set<Key>)
    requires s != {}
    ensures exists k :: k in s && forall l :: l in s ==> k.metric <= l.metric
  {
    var x :| x in s;
    if s == {x} {
      assert forall l :: l in s ==> x.metric <= l.metric;
    } else {
      var rest := s - {x};
      LowestExists(rest);
      var k :| k in rest && forall l :: l in rest ==> k.metric <= l.metric;
      var m := if k.metric <= x.metric then k else x;
      assert m in s && forall l :: l in s ==> m.metric <= l.metric;
    }
  }

  // ----- What the transaction means -----

  // Deleting the routes of `added`, last first, can lead from `t` to `u`.
  ghost predicate Undone(t: Table, added: seq<Route>, oks: nat -> bool, u: Table)
    decreases |added|
  {
    if added == [] then u == t
    else
      var n := |added| - 1;
      var last, rest := added[n], added[..n];
      exists m :: (if oks(n) then Deleted(t, last, m) else m == t) && Undone(m, rest, oks, u)
  }

  // The table `t` with those routes of `added` whose deletion failed.
  function Left(t: Table, added: seq<Route>, oks: nat -> bool): Table
    decreases |added|
  {
    if added == [] then t
    else
      var n := |added| - 1;
      Left(if oks(n) then t else t[KeyOf(added[n]) := HopOf(added[n])], added[..n], oks)
  }

  // `u` is `t` with the routes of `added` put into slots that were free.
  predicate Extends(t: Table, added: seq<Route>, u: Table)
    decreases |added|
  {
    if added == [] then u == t
    else
      var last := added[|added| - 1];
      && KeyOf(last) in u && u[KeyOf(last)] == HopOf(last)
      && KeyOf(last) !in t
      && Extends(t, added[..|added| - 1], u - {KeyOf(last)})
  }

  // A refusal that the code reports instead of taking it for "already there".
  predicate Reported(r: Route, fault: Option<string>) {
    fault.Some? && !SaysExists(r.dev, fault.value)
  }

  // The table after all the commands have run.
  function Installed(t: Table, journal: seq<Route>, faults: seq<Option<string>>): Table
    requires |faults| == |journal|
    decreases |journal|
  {
    if journal == [] then t
    else
      var n := |journal| - 1;
      var u := Installed(t, journal[..n], faults[..n]);
      if faults[n].Some? then u else Added(u, journal[n])
  }

  // The first command whose refusal is reported.
  predicate FirstReported(journal: seq<Route>, faults: seq<Option<string>>, k: nat)
    requires |faults| == |journal| && k < |journal|
  {
    Reported(journal[k], faults[k]) && forall m :: 0 <= m < k ==> !Reported(journal[m], faults[m])
  }

  // The routes the commands add: those that find their slot free.
  function AddedBy(t: Table, journal: seq<Route>, faults: seq<Option<string>>): seq<Route>
    requires |faults| == |journal|
    decreases |journal|
  {
    if journal == [] then []
    else
      var n := |journal| - 1;
      var before := AddedBy(t, journal[..n], faults[..n]);
      if faults[n].Some? || KeyOf(journal[n]) in Installed(t, journal[..n], faults[..n]) then before
      else before + [journal[n]]
  }

  lemma {:induction false} AddedExtends(t: Table, journal: seq<Route>, faults: seq<Option<string>>)
    requires |faults| == |journal|
    ensures Extends(t, AddedBy(t, journal, faults), Installed(t, journal, faults))
    decreases |journal|
  {
    if journal != [] {
      var n := |journal| - 1;
      AddedExtends(t, journal[..n], faults[..n]);
      if faults[n].None? && KeyOf(journal[n]) !in Installed(t, journal[..n], faults[..n]) {
        ExtendsStep(t, AddedBy(t, journal[..n], faults[..n]), Installed(t, journal[..n], faults[..n]), journal[n]);
      }
    }
  }

  lemma {:induction false} ExtendsKeeps(t: Table, added: seq<Route>, u: Table)
    requires Extends(t, added, u)
    ensures forall k :: k in t ==> k in u && u[k] == t[k]
    decreases |added|
  {
    if added != [] {
      ExtendsKeeps(t, added[..|added| - 1], u - {KeyOf(added[|added| - 1])});
    }
  }

  lemma ExtendsStep(t: Table, added: seq<Route>, u: Table, r: Route)
    requires Extends(t, added, u) && KeyOf(r) !in u
    ensures Extends(t, added + [r], u[KeyOf(r) := HopOf(r)])
  {
    ExtendsKeeps(t, added, u);
    assert (added + [r])[..|added|] == added;
    assert u[KeyOf(r) := HopOf(r)] - {KeyOf(r)} == u;
  }

  // One route more on both sides.
  lemma {:induction false} ExtendsMore(t: Table, added: seq<Route>, u: Table, k: Key, hop: Hop)
    requires Extends(t, added, u) && k !in u
    ensures Extends(t[k := hop], added, u[k := hop])
    decreases |added|
  {
    if added != [] {
      var last, rest := added[|added| - 1], added[..|added| - 1];
      ExtendsMore(t, rest, u - {KeyOf(last)}, k, hop);
      assert u[k := hop] - {KeyOf(last)} == (u - {KeyOf(last)})[k := hop];
    }
  }

  // Undoing what was added, in reverse order, leaves the starting table and the routes whose
  // deletion failed: no route that was there before, in any slot, is removed or changed.
  lemma {:induction false} UndoLeaves(t: Table, added: seq<Route>, oks: nat -> bool, u: Table, v: Table)
    requires Extends(t, added, u) && Undone(u, added, oks, v)
    ensures v == Left(t, added, oks)
    decreases |added|
  {
    if added != [] {
      var n := |added| - 1;
      var r, rest := added[n], added[..n];
      var m :| (if oks(n) then Deleted(u, r, m) else m == u) && Undone(m, rest, oks, v);
      if oks(n) {
        assert Fits(u, KeyOf(r), r);
        var k :| Fits(u, k, r) && (forall l :: Fits(u, l, r) ==> k.metric <= l.metric) && m == u - {k};
        assert k == KeyOf(r);
        UndoLeaves(t, rest, oks, m, v);
      } else {
        ExtendsMore(t, rest, u - {KeyOf(r)}, KeyOf(r), HopOf(r));
        assert (u - {KeyOf(r)})[KeyOf(r) := HopOf(r)] == u;
        UndoLeaves(t[KeyOf(r) := HopOf(r)], rest, oks, u, v);
      }
    }
  }

  // The starting table comes back exactly when every deletion took effect.
  lemma {:induction false} LeftIff(t: Table, added: seq<Route>, oks: nat -> bool, u: Table)
    requires Extends(t, added, u)
    ensures forall k :: k in t ==> k in Left(t, added, oks) && Left(t, added, oks)[k] == t[k]
    ensures Left(t, added, oks) == t <==> forall i :: 0 <= i < |added| ==> oks(i)
    decreases |added|
  {
    if added != [] {
      var n := |added| - 1;
      var r, rest := added[n], added[..n];
      if oks(n) {
        LeftIff(t, rest, oks, u - {KeyOf(r)});
      } else {
        ExtendsMore(t, rest, u - {KeyOf(r)}, KeyOf(r), HopOf(r));
        assert (u - {KeyOf(r)})[KeyOf(r) := HopOf(r)] == u;
        LeftIff(t[KeyOf(r) := HopOf(r)], rest, oks, u);
        assert KeyOf(r) in t[KeyOf(r) := HopOf(r)];
      }
    }
  }

  // How many commands are carried out before one whose refusal is reported.
  function Reach(journal: seq<Route>, faults: seq<Option<string>>): (n: nat)
    requires |faults| == |journal|
    ensures n <= |journal| && forall m :: 0 <= m < n ==> !Reported(journal[m], faults[m])
    ensures n < |journal| ==> FirstReported(journal, faults, n)
  {
    if journal == [] || Reported(journal[0], faults[0]) then 0 else 1 + Reach(journal[1..], faults[1..])
  }

  // The routes that are in the table when the undoing begins.
  function ToUndo(t: Table, journal: seq<Route>, faults: seq<Option<string>>): seq<Route>
    requires |faults| == |journal|
  {
    var n := Reach(journal, faults);
    AddedBy(t, journal[..n], faults[..n])
  }

  // A transaction followed by restore_added on what it returned, or by its own rollback, leaves the
  // starting table and those of its routes whose deletion failed; so it changes nothing if and only
  // if every deletion of a route it had added took effect.
  method ApplyThenRestore(kernel: Kernel, journal: seq<Route>, faults: seq<Option<string>>, oks: nat -> bool)
    returns (result: Option<seq<Route>>)
    requires |faults| == |journal|
    modifies kernel
    ensures var undone := ToUndo(old(kernel.table), journal, faults);
            && (result == if Reach(journal, faults) == |journal| then Some(undone) else None)
            && kernel.table == Left(old(kernel.table), undone, oks)
            && (kernel.table == old(kernel.table) <==> forall i :: 0 <= i < |undone| ==> oks(i))
    ensures forall k :: k in old(kernel.table) ==> k in kernel.table && kernel.table[k] == old(kernel.table)[k]
  {
    ghost var n, undone := Reach(journal, faults), ToUndo(old(kernel.table), journal, faults);
    ghost var reached := Installed(kernel.table, journal[..n], faults[..n]);
    AddedExtends(kernel.table, journal[..n], faults[..n]);
    LeftIff(kernel.table, undone, oks, reached);
    result := kernel.ApplyJournal(journal, faults, oks);
    if result.Some? {
      assert journal[..n] == journal && faults[..n] == faults;
      kernel.RestoreAdded(result.value, oks);
      UndoLeaves(old(kernel.table), result.value, oks, reached, kernel.table);
    } else {
      ghost var t := old(kernel.table);
      ghost var k :| 0 <= k < |journal| && FirstReported(journal, faults, k) &&
                     kernel.table == Left(t, AddedBy(t, journal[..k], faults[..k]), oks);
      assert k == n;
    }
  }

  // ----- What success promises -----

  // A slot is taken in the end if it was taken before or some command for it went through;
  // routes that were there are left as they are.
  lemma {:induction false} InstalledSlots(t: Table, journal: seq<Route>, faults: seq<Option<string>>, k: Key)
    requires |faults| == |journal|
    ensures k in Installed(t, journal, faults) <==>
            k in t || exists m :: 0 <= m < |journal| && faults[m].None? && KeyOf(journal[m]) == k
    ensures k in t ==> Installed(t, journal, faults)[k] == t[k]
    decreases |journal|
  {
    if journal != [] {
      var n := |journal| - 1;
      InstalledSlots(t, journal[..n], faults[..n], k);
      if m :| 0 <= m < n && faults[..n][m].None? && KeyOf(journal[..n][m]) == k {
        assert faults[m].None? && KeyOf(journal[m]) == k;
      }
      if m :| 0 <= m < |journal| && faults[m].None? && KeyOf(journal[m]) == k {
        assert m < n ==> faults[..n][m].None? && KeyOf(journal[..n][m]) == k;
      }
    }
  }

  // The code tells a refusal from "already there" by looking for the word "exists" in a
  // message that repeats the command. Every other refusal of a route is reported exactly
  // when the name of its device does not contain that word.
  lemma RefusalsReportedIff(r: Route)
    ensures (forall text :: !Mentions(text, "exists") ==> Reported(r, Some(text))) <==> !Mentions(r.dev, "exists")
  {
    if Mentions(r.dev, "exists") {
      assert !Mentions("", "exists") && !Reported(r, Some(""));
    }
  }

  // With such names, a transaction that succeeds has every destination in the table.
  lemma SuccessMeansPresent(t: Table, journal: seq<Route>, faults: seq<Option<string>>)
    requires |faults| == |journal|
    requires forall k :: 0 <= k < |journal| ==> !Mentions(journal[k].dev, "exists")
    requires forall k :: 0 <= k < |journal| && faults[k].Some? ==> !Mentions(faults[k].value, "exists")
    requires forall k :: 0 <= k < |journal| ==> !Reported(journal[k], faults[k])
    ensures forall k :: 0 <= k < |journal| ==> KeyOf(journal[k]) in Installed(t, journal, faults)
  {
    forall k | 0 <= k < |journal|
      ensures KeyOf(journal[k]) in Installed(t, journal, faults)
    {
      assert !Reported(journal[k], faults[k]);
      InstalledSlots(t, journal, faults, KeyOf(journal[k]));
    }
  }

  // A device called exists0 turns every refusal into a silent success.
  lemma RefusalSwallowed()
    ensures var r := Route(Net(V4, 10 * 0x100_0000, 8), None, "exists0");
            var fault := Some("RTNETLINK answers: Network is down");
            !Reported(r, fault) && KeyOf(r) !in Installed(map[], [r], [fault])
  {
    assert OccursAt("exists0", "exists", 0);
  }
}
