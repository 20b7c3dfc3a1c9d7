/** Binding the rows of several routes to the one daemon that answers on all of
    them: whatever the order, the same row survives. */
module Rebind {
  import opened Decimal
  import opened Registry

  /** A row to bind and the route its daemon answered on. The row is taken from
      one listing made at the start, or listed again when its turn comes. */
  datatype Alias = Alias(id: Id, host: Option<string>, listedAgain: bool)

  /** The rows that end up as one: the aliases bound and any owner there was. */
  function Group(before: Table, moved: set<Id>, daemon: string, session: string): set<Id> {
    moved + set i | i in before && Owns(before, i, daemon, session)
  }

  predicate IsAlias(before: Table, id: Id, session: string) {
    id in before && before[id].used.Some? && before[id].session == Some(session)
  }

  predicate At(row: Row, host: Option<string>, daemon: string) { row.host == host && row.daemon == Some(daemon) }

  /** What is left of a row of the group once `last` was the last to act. */
  function Now(row: Row, last: Option<Alias>, daemon: string): Row {
    if last.None? then row else Rerouted(row, last.value.host, Some(daemon))
  }

  /** Of the group only `best` is left, bound to the daemon on the route of the
      last alias that acted; no other row has changed. */
  predicate SettledOn(before: Table, after: Table, group: set<Id>, best: Id, last: Option<Alias>, daemon: string) {
    && IsBest(before, group, best)
    && after.Keys == before.Keys - (group - {best})
    && after[best] == Now(before[best], last, daemon)
    && forall i :: i in after && i != best ==> after[i] == before[i]
  }

  ghost predicate Settled(before: Table, after: Table, group: set<Id>, last: Option<Alias>, daemon: string) {
    if group == {} then after == before else exists best :: SettledOn(before, after, group, best, last, daemon)
  }

  /** The aliases that are not yet bound where they answer. */
  function Moved(before: Table, aliases: seq<Alias>, daemon: string): set<Id> {
    set k | 0 <= k < |aliases| && aliases[k].id in before
         && !At(before[aliases[k].id], aliases[k].host, daemon) :: aliases[k].id
  }

  /** An alias acts unless its row is gone, is already at its route as it was
      read, or has changed since. */
  predicate Acts(before: Table, group: set<Id>, last: Option<Alias>, alias: Alias, daemon: string)
    requires alias.id in before
  {
    var now := if alias.id in group then Now(before[alias.id], last, daemon) else before[alias.id];
    && (alias.id in group ==> IsBest(before, group, alias.id))
    && !At(if alias.listedAgain then now else before[alias.id], alias.host, daemon)
    && (alias.listedAgain || now == before[alias.id])
  }

  /** The last of the aliases that acts, said of the listing and the aliases alone. */
  function LastToAct(before: Table, aliases: seq<Alias>, daemon: string, session: string): Option<Alias>
    decreases |aliases|
  {
    if aliases == [] then None
    else
      var n := |aliases| - 1;
      var group := Group(before, Moved(before, aliases[..n], daemon), daemon, session);
      var last := LastToAct(before, aliases[..n], daemon, session);
      if aliases[n].id in before && Acts(before, group, last, aliases[n], daemon) then Some(aliases[n]) else last
  }

  /** What binding them all leaves. */
  ghost predicate Ends(before: Table, after: Table, aliases: seq<Alias>, daemon: string, session: string) {
    Settled(before, after, Group(before, Moved(before, aliases, daemon), daemon, session),
            LastToAct(before, aliases, daemon, session), daemon)
  }

  /** A row bound to no daemon whose key reads as the daemon's id. The key begins
      with a NUL, and so must the id: the id file is only trimmed, and a peer may
      send any text. */
  predicate Stranger(t: Table, i: Id, daemon: string, session: string) {
    i in t && t[i].used.Some? && t[i].session == Some(session) && t[i].daemon.None? && Key(t[i]) == daemon
  }

  ghost predicate NoStranger(t: Table, but: Id, daemon: string, session: string) {
    forall i :: Stranger(t, i, daemon, session) ==> i == but
  }

  /** The index keeps a stranger and an owner apart. */
  lemma OwnerKeepsStrangersOut(t: Table, owner: Id, but: Id, daemon: string, session: string)
    requires IndexOk(t) && Owns(t, owner, daemon, session)
    ensures NoStranger(t, but, daemon, session)
  {
    forall i | i in t ensures !Stranger(t, i, daemon, session) {
      assert i != owner ==> !Clash(t[i], t[owner]);
    }
  }

  /** Binding a row is refused exactly when a stranger has the key. */
  lemma RefusedExactly(t: Table, alias: Alias, daemon: string, session: string)
    requires IndexOk(t) && IsAlias(t, alias.id, session)
    ensures Refused(t, t[alias.id], alias.id, alias.host, daemon, session) <==> !NoStranger(t, alias.id, daemon, session)
  {
    hide IndexOk, Merged;
    var bound := Rerouted(t[alias.id], alias.host, Some(daemon));
    if !NoStranger(t, alias.id, daemon, session) {
      var s :| Stranger(t, s, daemon, session) && s != alias.id;
      assert Clash(t[s], bound);
      forall owner | owner in t ensures !Owns(t, owner, daemon, session) {
        if Owns(t, owner, daemon, session) {
          OwnerKeepsStrangersOut(t, owner, alias.id, daemon, session);
        }
      }
    } else if !Free(t, alias.id, bound) {
      var i :| i in t && i != alias.id && Clash(t[i], bound);
      ClashIsOwner(t, i, bound, daemon, session);
      MergedKeepsIndex(t, i, alias.id, alias.host, daemon, session);
      assert MergesInto(t, alias.id, i, alias.host, daemon, session);
    }
  }

  lemma OwnerIsBest(before: Table, t: Table, moved: set<Id>, best: Id, last: Option<Alias>, daemon: string, session: string)
    requires SettledOn(before, t, Group(before, moved, daemon, session), best, last, daemon)
    requires (forall i :: i in moved ==> IsAlias(before, i, session)) && (last.None? ==> moved == {})
    ensures Owns(t, best, daemon, session)
    ensures forall i :: Owns(t, i, daemon, session) ==> i == best
  {
    forall i | Owns(t, i, daemon, session) ensures i == best {
      if i != best {
        assert Owns(before, i, daemon, session);
      }
    }
  }

  /** A row the index would refuse under the daemon's key meets its owner or a
      stranger. */
  lemma ClashIsOwner(t: Table, i: Id, row: Row, daemon: string, session: string)
    requires i in t && row.daemon == Some(daemon) && row.session == Some(session) && row.used.Some?
    ensures Clash(t[i], row) <==> Owns(t, i, daemon, session) || Stranger(t, i, daemon, session)
  {
  }

  lemma MergedKeepsIndex(t: Table, owner: Id, candidate: Id, host: Option<string>, daemon: string, session: string)
    requires IndexOk(t) && Owns(t, owner, daemon, session) && IsAlias(t, candidate, session)
    ensures IndexOk(Merged(t, owner, candidate, true, host, daemon))
  {
    var survivor := SurvivorOf(t, owner, candidate, true);
    var losers := {owner, candidate} - {survivor};
    var row := Rerouted(t[survivor], host, Some(daemon));
    var rest := t - losers;
    OwnerKeepsStrangersOut(t, owner, owner, daemon, session);
    forall i | i in rest && i != survivor ensures !Clash(rest[i], row) {
      ClashIsOwner(rest, i, row, daemon, session);
      if Owns(rest, i, daemon, session) {
        OneOwner(t, i, owner, daemon, session);
      }
      if Stranger(rest, i, daemon, session) {
        assert Stranger(t, i, daemon, session);
      }
    }
    assert IndexOk(rest);
    IndexAfterWrite(rest, survivor, row);
  }

  lemma MergedSettles(before: Table, t: Table, group: set<Id>, best: Id, last: Option<Alias>, alias: Alias, daemon: string)
    requires SettledOn(before, t, group, best, last, daemon) && alias.id in t && alias.id !in group
    ensures SettledOn(before, Merged(t, best, alias.id, true, alias.host, daemon), group + {alias.id},
                      SurvivorOf(t, best, alias.id, true), Some(alias), daemon)
  {
    BestGrows(before, group, best, alias.id);
    assert Better(t, alias.id, best) == Better(before, alias.id, best);
  }

  /** What binding row `id`, last seen as `known`, makes of the table `t`. */
  predicate Rebound(t: Table, after: Table, known: Row, id: Id, host: Option<string>, daemon: string, session: string) {
    if !Matches(t, id, known.host, known.daemon) then after == t
    else
      var bound := Rerouted(t[id], host, Some(daemon));
      if Free(t, id, bound) then after == t[id := bound]
      else forall owner :: owner in t && MergesInto(t, id, owner, host, daemon, session) ==>
             after == Merged(t, owner, id, IsAlias(t, id, session), host, daemon)
  }

  /** The index refuses the rebind and no owner settles it. */
  predicate Refused(t: Table, known: Row, id: Id, host: Option<string>, daemon: string, session: string) {
    && Matches(t, id, known.host, known.daemon)
    && !Free(t, id, Rerouted(t[id], host, Some(daemon)))
    && forall owner :: owner in t ==> !MergesInto(t, id, owner, host, daemon, session)
  }

  predicate MergesInto(t: Table, id: Id, owner: Id, host: Option<string>, daemon: string, session: string)
    requires owner in t
  {
    Owns(t, owner, daemon, session) && IndexOk(Merged(t, owner, id, IsAlias(t, id, session), host, daemon))
  }

  /** One alias, from the row the caller listed: rebind, and on a refusal by the
      index, resolve. */
  method BindAlias(registry: Registry, known: Row, alias: Alias, daemon: string, session: string) returns (ok: bool)
    requires registry.Valid()
    modifies registry
    ensures registry.Valid()
    ensures At(known, alias.host, daemon) ==> registry.rows == old(registry.rows)
    ensures !At(known, alias.host, daemon) ==>
      Rebound(old(registry.rows), registry.rows, known, alias.id, alias.host, daemon, session)
    ensures ok <==> At(known, alias.host, daemon)
                    || !Refused(old(registry.rows), known, alias.id, alias.host, daemon, session)
    ensures !ok ==> registry.rows == old(registry.rows)
  {
    hide IndexOk, Merged, Free;
    if At(known, alias.host, daemon) {
      return true;
    }
    var written := registry.RebindRoute(alias.id, known.host, known.daemon, alias.host, Some(daemon));
    if written != Failed {
      return true;
    }
    var resolution :=
      registry.ResolveRebindConflict(alias.id, known.host, known.daemon, alias.host, Some(daemon), session);
    ok := resolution.Survivor?;
  }

  /** The row as the caller last read it. */
  function Known(before: Table, t: Table, alias: Alias): Row
    requires alias.id in if alias.listedAgain then t else before
  {
    if alias.listedAgain then t[alias.id] else before[alias.id]
  }

  /** What the caller's loop makes of the table `t` for one alias. */
  predicate Handled(before: Table, t: Table, after: Table, alias: Alias, daemon: string, session: string)
    requires alias.id in before
  {
    if alias.listedAgain && alias.id !in t then after == t
    else
      var known := Known(before, t, alias);
      if At(known, alias.host, daemon) then after == t
      else Rebound(t, after, known, alias.id, alias.host, daemon, session)
  }

  /** What one alias does to a table that is settled so far. */
  lemma AliasSettles(before: Table, t: Table, after: Table, moved: set<Id>, last: Option<Alias>, alias: Alias,
                     daemon: string, session: string)
    requires IndexOk(t) && IsAlias(before, alias.id, session)
    requires (forall i :: i in moved ==> IsAlias(before, i, session)) && (last.None? ==> moved == {})
    requires Settled(before, t, Group(before, moved, daemon, session), last, daemon)
    requires Group(before, moved, daemon, session) == {} ==> NoStranger(t, alias.id, daemon, session)
    requires Handled(before, t, after, alias, daemon, session)
    ensures var wider := moved + if At(before[alias.id], alias.host, daemon) then {} else {alias.id};
      Settled(before, after, Group(before, wider, daemon, session),
              if Acts(before, Group(before, moved, daemon, session), last, alias, daemon) then Some(alias) else last, daemon)
    ensures alias.listedAgain ==> alias.id in t ==> !Refused(t, t[alias.id], alias.id, alias.host, daemon, session)
    ensures !alias.listedAgain ==> !Refused(t, before[alias.id], alias.id, alias.host, daemon, session)
  {
    hide IndexOk, Merged, Free, Handled, Rebound, Refused;
    var a := alias.id;
    var group := Group(before, moved, daemon, session);
    if a in group {
      assert Group(before, moved + {a}, daemon, session) == group;
      var best :| SettledOn(before, t, group, best, last, daemon);
      OwnerIsBest(before, t, moved, best, last, daemon, session);
      if a == best {
        SurvivorAgain(before, t, after, group, last, alias, daemon, session);
      } else {
        GoneAgain(before, t, after, group, best, last, alias, daemon, session);
      }
      assert SettledOn(before, after, group, best, if Acts(before, group, last, alias, daemon) then Some(alias) else last, daemon);
      assert moved + {} == moved;
    } else {
      assert Group(before, moved + {a}, daemon, session) == group + {a};
      NewAlias(before, t, after, moved, last, alias, daemon, session);
    }
  }

  /** An alias whose row is not yet part of the group always acts. */
  lemma NewAlias(before: Table, t: Table, after: Table, moved: set<Id>, last: Option<Alias>, alias: Alias,
                 daemon: string, session: string)
    requires IndexOk(t) && IsAlias(before, alias.id, session)
    requires (forall i :: i in moved ==> IsAlias(before, i, session)) && (last.None? ==> moved == {})
    requires Settled(before, t, Group(before, moved, daemon, session), last, daemon)
    requires Group(before, moved, daemon, session) == {} ==> NoStranger(t, alias.id, daemon, session)
    requires alias.id !in Group(before, moved, daemon, session) && Handled(before, t, after, alias, daemon, session)
    ensures alias.id in t && t[alias.id] == before[alias.id] && !At(before[alias.id], alias.host, daemon)
    ensures Acts(before, Group(before, moved, daemon, session), last, alias, daemon)
    ensures Settled(before, after, Group(before, moved, daemon, session) + {alias.id}, Some(alias), daemon)
    ensures !Refused(t, before[alias.id], alias.id, alias.host, daemon, session)
  {
    hide IndexOk, Merged;
    var a := alias.id;
    var group := Group(before, moved, daemon, session);
    var bound := Rerouted(before[a], alias.host, Some(daemon));
    if group == {} {
      forall i | i in t && i != a ensures !Clash(t[i], bound) {
        ClashIsOwner(t, i, bound, daemon, session);
        assert i !in group;
      }
      assert SettledOn(before, after, group + {a}, a, Some(alias), daemon);
    } else {
      var best :| SettledOn(before, t, group, best, last, daemon);
      NewAliasMerges(before, t, after, moved, best, last, alias, daemon, session);
    }
  }

  lemma NewAliasMerges(before: Table, t: Table, after: Table, moved: set<Id>, best: Id, last: Option<Alias>, alias: Alias,
                       daemon: string, session: string)
    requires IndexOk(t) && IsAlias(t, alias.id, session) && alias.id in before
    requires (forall i :: i in moved ==> IsAlias(before, i, session)) && (last.None? ==> moved == {})
    requires SettledOn(before, t, Group(before, moved, daemon, session), best, last, daemon)
    requires alias.id !in Group(before, moved, daemon, session)
    requires Rebound(t, after, t[alias.id], alias.id, alias.host, daemon, session)
    ensures Settled(before, after, Group(before, moved, daemon, session) + {alias.id}, Some(alias), daemon)
    ensures !Refused(t, t[alias.id], alias.id, alias.host, daemon, session)
  {
    var group := Group(before, moved, daemon, session);
    OwnerIsBest(before, t, moved, best, last, daemon, session);
    MergedKeepsIndex(t, best, alias.id, alias.host, daemon, session);
    MergedSettles(before, t, group, best, last, alias, daemon);
    OwnerKeepsStrangersOut(t, best, alias.id, daemon, session);
    hide IndexOk, Merged, SettledOn, Group, Stranger;
    ClashIsOwner(t, best, Rerouted(t[alias.id], alias.host, Some(daemon)), daemon, session);
    assert MergesInto(t, alias.id, best, alias.host, daemon, session);
  }

  /** An alias whose row is the one left of the group. */
  lemma SurvivorAgain(before: Table, t: Table, after: Table, group: set<Id>, last: Option<Alias>, alias: Alias,
                      daemon: string, session: string)
    requires IndexOk(t) && alias.id in group && IsAlias(before, alias.id, session)
    requires SettledOn(before, t, group, alias.id, last, daemon) && Owns(t, alias.id, daemon, session)
    requires forall i :: Owns(t, i, daemon, session) ==> i == alias.id
    requires Handled(before, t, after, alias, daemon, session)
    ensures SettledOn(before, after, group, alias.id, if Acts(before, group, last, alias, daemon) then Some(alias) else last, daemon)
    ensures forall known :: !Refused(t, known, alias.id, alias.host, daemon, session)
  {
    OwnerKeepsStrangersOut(t, alias.id, alias.id, daemon, session);
    hide IndexOk, Merged, MergesInto, Stranger;
    var bound := Rerouted(t[alias.id], alias.host, Some(daemon));
    forall i | i in t && i != alias.id ensures !Clash(t[i], bound) {
      ClashIsOwner(t, i, bound, daemon, session);
    }
    assert Free(t, alias.id, bound);
  }

  /** An alias whose row has lost to another of the group. */
  lemma GoneAgain(before: Table, t: Table, after: Table, group: set<Id>, best: Id, last: Option<Alias>, alias: Alias,
                  daemon: string, session: string)
    requires alias.id in group && alias.id != best && IsAlias(before, alias.id, session)
    requires SettledOn(before, t, group, best, last, daemon) && Handled(before, t, after, alias, daemon, session)
    ensures after == t && alias.id !in t && !Acts(before, group, last, alias, daemon)
    ensures forall known :: !Refused(t, known, alias.id, alias.host, daemon, session)
  {
    hide Free, Merged, MergesInto;
    if IsBest(before, group, alias.id) {
      OneBest(before, group, alias.id, best);
    }
  }

  /** Somebody acts exactly when somebody is to be moved. */
  lemma {:induction false} SomebodyActs(before: Table, aliases: seq<Alias>, daemon: string, session: string)
    requires IndexOk(before) && forall k :: 0 <= k < |aliases| ==> IsAlias(before, aliases[k].id, session)
    ensures LastToAct(before, aliases, daemon, session).None? <==> Moved(before, aliases, daemon) == {}
    decreases |aliases|
  {
    hide IndexOk;
    if aliases != [] {
      var n := |aliases| - 1;
      SomebodyActs(before, aliases[..n], daemon, session);
      MovedGrows(before, aliases, n, daemon);
      assert aliases[..n + 1] == aliases;
      var group := Group(before, Moved(before, aliases[..n], daemon), daemon, session);
      if LastToAct(before, aliases[..n], daemon, session).None? && aliases[n].id in group {
        OnlyOwner(before, group, aliases[n].id, daemon, session);
      }
    }
  }

  lemma OnlyOwner(before: Table, group: set<Id>, id: Id, daemon: string, session: string)
    requires IndexOk(before) && group == Group(before, {}, daemon, session) && id in group
    ensures IsBest(before, group, id)
  {
    forall i | i in group ensures i == id {
      OneOwner(before, i, id, daemon, session);
    }
  }

  /** The first alias meets a stranger. Nobody owns the record then, for the
      index keeps the two apart; and once an alias is bound, it keeps any
      stranger out. */
  ghost predicate Blocked(before: Table, aliases: seq<Alias>, daemon: string, session: string) {
    aliases != [] && !NoStranger(before, aliases[0].id, daemon, session)
  }

  /** Every alias in turn, each from the same listing or listed again. */
  method BindAliases(registry: Registry, aliases: seq<Alias>, daemon: string, session: string)
    returns (ok: bool, ghost last: Option<Alias>)
    requires registry.Valid()
    requires forall k :: 0 <= k < |aliases| ==> IsAlias(registry.rows, aliases[k].id, session)
    modifies registry
    ensures registry.Valid()
    ensures ok <==> !Blocked(old(registry.rows), aliases, daemon, session)
    ensures !ok ==> registry.rows == old(registry.rows)
    ensures ok ==> Ends(old(registry.rows), registry.rows, aliases, daemon, session)
    ensures ok ==> last == LastToAct(old(registry.rows), aliases, daemon, session)
    ensures ok ==> (last.None? <==> Moved(old(registry.rows), aliases, daemon) == {})
    ensures ok && last.None? ==> registry.rows == old(registry.rows)
  {
    hide IndexOk, Merged, Free, Settled, Matches, Refused, Rebound, Acts, IsAlias, At, NoStranger, Group;
    var before := registry.rows;
    last := None;
    StartsSettled(before, daemon, session);
    assert Moved(before, [], daemon) == {};
    ok := true;
    var n := 0;
    while n < |aliases|
      invariant 0 <= n <= |aliases| && registry.Valid() && ok
      invariant n == 0 ==> registry.rows == before
      invariant n > 0 ==> !Blocked(before, aliases, daemon, session)
      invariant n > 0 ==> Group(before, Moved(before, aliases[..n], daemon), daemon, session) != {}
      invariant last == LastToAct(before, aliases[..n], daemon, session)
      invariant Settled(before, registry.rows, Group(before, Moved(before, aliases[..n], daemon), daemon, session), last, daemon)
    {
      var alias := aliases[n];
      ghost var t, moved := registry.rows, Moved(before, aliases[..n], daemon);
      BeforeAlias(before, aliases, n, daemon, session);
      GroupGrows(before, moved, alias, daemon, session);
      if n == 0 {
        RefusedExactly(before, alias, daemon, session);
        AtIsNotRefused(before, alias, daemon, session);
      }
      if !alias.listedAgain || alias.id in registry.rows {
        var known := if alias.listedAgain then registry.rows[alias.id] else before[alias.id];
        ok := BindAlias(registry, known, alias, daemon, session);
      }
      if n > 0 || NoStranger(before, alias.id, daemon, session) {
        AliasSettles(before, t, registry.rows, moved, last, alias, daemon, session);
      }
      if !ok {
        return;
      }
      last := LastToAct(before, aliases[..n + 1], daemon, session);
      n := n + 1;
    }
    assert aliases[..|aliases|] == aliases;
    SomebodyActs(before, aliases, daemon, session);
    if last.None? {
      NobodyMoved(before, registry.rows, aliases, daemon, session);
    }
  }

  /** A row already at its route is the owner's. */
  lemma AtIsNotRefused(t: Table, alias: Alias, daemon: string, session: string)
    requires IndexOk(t) && IsAlias(t, alias.id, session)
    ensures At(t[alias.id], alias.host, daemon) ==> NoStranger(t, alias.id, daemon, session)
  {
    if At(t[alias.id], alias.host, daemon) {
      OwnerKeepsStrangersOut(t, alias.id, alias.id, daemon, session);
    }
  }

  /** After its turn an alias is part of the group. */
  lemma GroupGrows(before: Table, moved: set<Id>, alias: Alias, daemon: string, session: string)
    requires IsAlias(before, alias.id, session)
    ensures var wider := moved + if At(before[alias.id], alias.host, daemon) then {} else {alias.id};
      alias.id in Group(before, wider, daemon, session)
  {
  }

  /** Which alias comes first can decide: with a stranger about, it must itself
      be the first to be bound. */
  lemma StrangerFirst(before: Table, stranger: Id, aliases: seq<Alias>, daemon: string, session: string)
    requires IndexOk(before) && Stranger(before, stranger, daemon, session) && aliases != []
    ensures Blocked(before, aliases, daemon, session) <==> aliases[0].id != stranger
  {
    forall i | Stranger(before, i, daemon, session) ensures i == stranger {
      if i != stranger {
        assert Clash(before[i], before[stranger]);
      }
    }
  }

  /** What is known of the aliases before the next one. */
  lemma BeforeAlias(before: Table, aliases: seq<Alias>, n: nat, daemon: string, session: string)
    requires IndexOk(before) && n < |aliases| && forall k :: 0 <= k < |aliases| ==> IsAlias(before, aliases[k].id, session)
    ensures IsAlias(before, aliases[n].id, session) && aliases[n].id in before
    ensures forall i :: i in Moved(before, aliases[..n], daemon) ==> IsAlias(before, i, session)
    ensures LastToAct(before, aliases[..n], daemon, session).None? ==> Moved(before, aliases[..n], daemon) == {}
    ensures Moved(before, aliases[..n + 1], daemon) == Moved(before, aliases[..n], daemon)
      + if At(before[aliases[n].id], aliases[n].host, daemon) then {} else {aliases[n].id}
    ensures LastToAct(before, aliases[..n + 1], daemon, session)
      == if Acts(before, Group(before, Moved(before, aliases[..n], daemon), daemon, session),
                 LastToAct(before, aliases[..n], daemon, session), aliases[n], daemon)
         then Some(aliases[n]) else LastToAct(before, aliases[..n], daemon, session)
  {
    hide IndexOk, Acts;
    assert aliases[..n + 1][..n] == aliases[..n];
    MovedGrows(before, aliases, n, daemon);
    SomebodyActs(before, aliases[..n], daemon, session);
  }

  lemma NobodyMoved(before: Table, after: Table, aliases: seq<Alias>, daemon: string, session: string)
    requires Settled(before, after, Group(before, Moved(before, aliases, daemon), daemon, session), None, daemon)
    requires IndexOk(before) && Moved(before, aliases, daemon) == {}
    ensures after == before
  {
    var group := Group(before, {}, daemon, session);
    if group != {} {
      var best :| SettledOn(before, after, group, best, None, daemon);
      OnlyOwner(before, group, best, daemon, session);
      forall i | i in group ensures i == best {
        OneOwner(before, i, best, daemon, session);
      }
      assert group == {best};
    }
  }

  lemma StartsSettled(before: Table, daemon: string, session: string)
    requires IndexOk(before)
    ensures Settled(before, before, Group(before, {}, daemon, session), None, daemon)
  {
    var group := Group(before, {}, daemon, session);
    if group != {} {
      var best :| best in group;
      OnlyOwner(before, group, best, daemon, session);
      forall i | i in group ensures i == best {
        OneOwner(before, i, best, daemon, session);
      }
      assert SettledOn(before, before, group, best, None, daemon);
    }
  }

  lemma MovedGrows(before: Table, aliases: seq<Alias>, n: nat, daemon: string)
    requires n < |aliases| && aliases[n].id in before
    ensures var row := before[aliases[n].id];
      Moved(before, aliases[..n + 1], daemon) == Moved(before, aliases[..n], daemon)
        + if At(row, aliases[n].host, daemon) then {} else {aliases[n].id}
  {
    var small, large := Moved(before, aliases[..n], daemon), Moved(before, aliases[..n + 1], daemon);
    forall i | i in small ensures i in large {
      var k :| 0 <= k < n && aliases[..n][k].id == i && !At(before[i], aliases[..n][k].host, daemon);
      assert aliases[..n + 1][k] == aliases[..n][k];
    }
    forall i | i in large ensures i in small || i == aliases[n].id {
      var k :| 0 <= k < n + 1 && aliases[..n + 1][k].id == i && !At(before[i], aliases[..n + 1][k].host, daemon);
      if k < n {
        assert aliases[..n][k] == aliases[..n + 1][k];
      }
    }
    assert aliases[..n + 1][n] == aliases[n];
  }

  // ---- two orders of the same aliases ----

  lemma MovedIsUnordered(before: Table, a: seq<Alias>, b: seq<Alias>, daemon: string)
    requires multiset(a) == multiset(b)
    ensures Moved(before, a, daemon) == Moved(before, b, daemon)
  {
    MovedIsIncluded(before, a, b, daemon);
    MovedIsIncluded(before, b, a, daemon);
  }

  lemma MovedIsIncluded(before: Table, a: seq<Alias>, b: seq<Alias>, daemon: string)
    requires multiset(a) == multiset(b)
    ensures Moved(before, a, daemon) <= Moved(before, b, daemon)
  {
    forall i | i in Moved(before, a, daemon) ensures i in Moved(before, b, daemon) {
      var k :| 0 <= k < |a| && a[k].id == i && !At(before[i], a[k].host, daemon);
      assert a[k] in multiset(b);
      var m :| 0 <= m < |b| && b[m] == a[k];
    }
  }

  lemma {:induction false} LastIsOneOfThem(before: Table, aliases: seq<Alias>, daemon: string, session: string)
    ensures var last := LastToAct(before, aliases, daemon, session); last.Some? ==> last.value in aliases
    decreases |aliases|
  {
    hide Acts;
    if aliases != [] {
      LastIsOneOfThem(before, aliases[..|aliases| - 1], daemon, session);
    }
  }

  /** Two orders of the same aliases leave the same rows; they leave the same
      table exactly when nobody acts or the last to act in the one order answers
      on the same route as the last to act in the other. */
  lemma OrderMattersExactly(before: Table, a: seq<Alias>, b: seq<Alias>, one: Table, other: Table, daemon: string,
                            session: string)
    requires IndexOk(before) && multiset(a) == multiset(b)
    requires forall k :: 0 <= k < |a| ==> IsAlias(before, a[k].id, session)
    requires Ends(before, one, a, daemon, session) && Ends(before, other, b, daemon, session)
    ensures one.Keys == other.Keys && forall i :: i in one ==> one[i].(host := None) == other[i].(host := None)
    ensures var last, last' := LastToAct(before, a, daemon, session), LastToAct(before, b, daemon, session);
      && (last.Some? <==> last'.Some?)
      && (one == other <==> last.None? || last.value.host == last'.value.host)
  {
    hide IndexOk, Acts, LastToAct, At;
    MovedIsUnordered(before, a, b, daemon);
    forall k | 0 <= k < |b| ensures IsAlias(before, b[k].id, session) {
      assert b[k] in multiset(a);
      var m :| 0 <= m < |a| && a[m] == b[k];
    }
    SomebodyActs(before, a, daemon, session);
    SomebodyActs(before, b, daemon, session);
    var group := Group(before, Moved(before, a, daemon), daemon, session);
    if group != {} {
      var best :| SettledOn(before, one, group, best, LastToAct(before, a, daemon, session), daemon);
      var same :| SettledOn(before, other, group, same, LastToAct(before, b, daemon, session), daemon);
      OneBest(before, group, best, same);
      SameButForTheRoute(before, one, other, group, best, LastToAct(before, a, daemon, session),
                         LastToAct(before, b, daemon, session), daemon);
    } else {
      NobodyToMove(before, a, daemon, session);
    }
  }

  lemma SameButForTheRoute(before: Table, one: Table, other: Table, group: set<Id>, best: Id, last: Option<Alias>,
                           last': Option<Alias>, daemon: string)
    requires SettledOn(before, one, group, best, last, daemon) && SettledOn(before, other, group, best, last', daemon)
    requires last.Some? <==> last'.Some?
    ensures one.Keys == other.Keys && forall i :: i in one ==> one[i].(host := None) == other[i].(host := None)
    ensures one == other <==> last.None? || last.value.host == last'.value.host
  {
    assert best in one && best in other;
  }

  lemma NobodyToMove(before: Table, aliases: seq<Alias>, daemon: string, session: string)
    requires Group(before, Moved(before, aliases, daemon), daemon, session) == {}
    ensures Moved(before, aliases, daemon) == {}
  {
    assert Moved(before, aliases, daemon) <= Group(before, Moved(before, aliases, daemon), daemon, session);
  }

  /** So on one route the order does not matter at all. */
  lemma OneRouteOneTable(before: Table, a: seq<Alias>, b: seq<Alias>, one: Table, other: Table, host: Option<string>,
                         daemon: string, session: string)
    requires IndexOk(before) && multiset(a) == multiset(b)
    requires forall k :: 0 <= k < |a| ==> IsAlias(before, a[k].id, session) && a[k].host == host
    requires Ends(before, one, a, daemon, session) && Ends(before, other, b, daemon, session)
    ensures one == other
  {
    hide IndexOk, Ends, LastToAct;
    OrderMattersExactly(before, a, b, one, other, daemon, session);
    LastIsOneOfThem(before, a, daemon, session);
    LastIsOneOfThem(before, b, daemon, session);
    forall alias | alias in b ensures alias.host == host {
      assert alias in multiset(a);
    }
  }

  /** On two it does: two rows nobody owns, bound in the two orders. */
  lemma TwoRoutesTwoTables(before: Table, x: Alias, y: Alias, one: Table, other: Table, daemon: string, session: string)
    requires IndexOk(before) && IsAlias(before, x.id, session) && IsAlias(before, y.id, session)
    requires x.id != y.id && x.host != y.host && forall i :: !Owns(before, i, daemon, session)
    requires Ends(before, one, [x, y], daemon, session) && Ends(before, other, [y, x], daemon, session)
    ensures one != other
    ensures LastToAct(before, [x, y], daemon, session) == Some(y) && LastToAct(before, [y, x], daemon, session) == Some(x)
  {
    hide IndexOk, Ends;
    SecondActs(before, x, y, daemon, session);
    SecondActs(before, y, x, daemon, session);
    OrderMattersExactly(before, [x, y], [y, x], one, other, daemon, session);
  }

  lemma SecondActs(before: Table, x: Alias, y: Alias, daemon: string, session: string)
    requires IsAlias(before, y.id, session) && x.id != y.id && forall i :: !Owns(before, i, daemon, session)
    ensures LastToAct(before, [x, y], daemon, session) == Some(y)
  {
    assert [x, y][..1] == [x];
    assert forall i :: i in Moved(before, [x], daemon) ==> i == x.id;
    assert !At(before[y.id], y.host, daemon) by {
      assert !Owns(before, y.id, daemon, session);
    }
  }
}
