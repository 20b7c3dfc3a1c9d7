/** Scopes reach a row from several places in any order. The revision decides. */
module Scope {
  import opened Decimal
  import opened Registry

  function Scopes(row: Row, updates: seq<Update>): Row
    decreases |updates|
  {
    if updates == [] then row else Scoped(Scopes(row, updates[..|updates| - 1]), updates[|updates| - 1])
  }

  predicate Distinct(updates: seq<Update>) {
    forall i, j :: 0 <= i < j < |updates| ==> updates[i].rev != updates[j].rev
  }

  predicate SameScope(row: Row, update: Update) {
    row.rev == update.rev && row.project == update.project && row.identity == Some(update.identity)
  }

  /** The newest of the updates the row accepts has won, if there is one. */
  ghost predicate NewestWon(row: Row, updates: seq<Update>, result: Row) {
    || (result == row && forall i :: 0 <= i < |updates| ==> !Accepts(row, updates[i].rev))
    || exists w :: Won(row, updates, result, w)
  }

  predicate Won(row: Row, updates: seq<Update>, result: Row, w: int) {
    && 0 <= w < |updates| && Accepts(row, updates[w].rev) && SameScope(result, updates[w])
    && (forall i :: 0 <= i < |updates| ==> updates[i].rev <= updates[w].rev)
    && (updates[w].repository.Some? ==> result.repository == updates[w].repository.value)
    && result == row.(rev := result.rev, project := result.project, identity := result.identity, repository := result.repository)
    && ((forall i :: 0 <= i < |updates| ==> updates[i].repository.None?) ==> result.repository == row.repository)
  }

  lemma {:induction false} LastRevisionWins(row: Row, updates: seq<Update>)
    requires Distinct(updates)
    ensures NewestWon(row, updates, Scopes(row, updates))
    decreases |updates|
  {
    if updates != [] {
      var n := |updates| - 1;
      var before := updates[..n];
      LastRevisionWins(row, before);
      var last := Scopes(row, before);
      var result := Scopes(row, updates);
      if !(exists w :: Won(row, before, last, w)) {
        forall i | 0 <= i < n ensures updates[i].rev <= row.rev {
          assert !Accepts(row, before[i].rev);
        }
        if Accepts(row, updates[n].rev) {
          assert Won(row, updates, result, n);
        }
      } else {
        var w :| Won(row, before, last, w);
        assert forall i :: 0 <= i < n ==> before[i] == updates[i];
        if Accepts(last, updates[n].rev) {
          assert Won(row, updates, result, n);
        } else {
          assert Won(row, updates, result, w);
        }
      }
    }
  }

  /** Stored revisions never go down, and a refused write changes nothing. */
  lemma RevisionsNeverGoDown(row: Row, update: Update)
    ensures Scoped(row, update).rev >= row.rev
    ensures Scoped(row, update) != row ==> Accepts(row, update.rev) && SameScope(Scoped(row, update), update)
    ensures Accepts(row, update.rev) ==> !Accepts(Scoped(row, update), update.rev)
  {
  }

  predicate SameUpdates(a: seq<Update>, b: seq<Update>) {
    && (forall i :: 0 <= i < |a| ==> a[i] in b)
    && (forall i :: 0 <= i < |b| ==> b[i] in a)
  }

  /** No order can lose a repository path: the newest accepted update brings one,
      or every accepted update that brings one brings the path the row has. */
  ghost predicate NothingToLose(row: Row, updates: seq<Update>) {
    forall w, i :: Newest(row, updates, w) && updates[w].repository.None? && Brings(row, updates, i) ==>
      updates[i].repository.value == row.repository
  }

  predicate Newest(row: Row, updates: seq<Update>, w: int) {
    && 0 <= w < |updates| && Accepts(row, updates[w].rev)
    && forall i :: 0 <= i < |updates| ==> updates[i].rev <= updates[w].rev
  }

  predicate Brings(row: Row, updates: seq<Update>, i: int) {
    0 <= i < |updates| && Accepts(row, updates[i].rev) && updates[i].repository.Some?
  }

  /** Any finite set of updates with distinct revisions ends in the same scope
      in every order, and in the same row if there is no path to lose. */
  lemma {:induction false} ScopeOrderDoesNotMatter(row: Row, a: seq<Update>, b: seq<Update>)
    requires Distinct(a) && Distinct(b) && SameUpdates(a, b)
    ensures var one, other := Scopes(row, a), Scopes(row, b);
      && one.(repository := other.repository) == other
      && (NothingToLose(row, a) ==> one == other)
  {
    var one, other := Scopes(row, a), Scopes(row, b);
    LastRevisionWins(row, a);
    LastRevisionWins(row, b);
    if v :| Won(row, a, one, v) {
      var k :| 0 <= k < |b| && b[k] == a[v];
      assert Accepts(row, b[k].rev);
      var w :| Won(row, b, other, w);
      Same(row, a, b, one, other, v, w);
      assert Newest(row, a, v);
      if NothingToLose(row, a) && a[v].repository.None? {
        PathIsKept(row, a, a, v);
        PathIsKept(row, a, b, v);
      }
    } else {
      assert forall i :: 0 <= i < |a| ==> !Accepts(row, a[i].rev);
      assert !exists w :: Won(row, b, other, w);
    }
  }

  /** With nothing to lose and no path from the newest, the row's own path stays. */
  lemma PathIsKept(row: Row, a: seq<Update>, b: seq<Update>, v: int)
    requires NothingToLose(row, a) && Newest(row, a, v) && a[v].repository.None? && SameUpdates(a, b)
    ensures Scopes(row, b).repository == row.repository
  {
    PathComesFrom(row, b);
    forall i | Brings(row, b, i) ensures b[i].repository.value == row.repository {
      var k :| 0 <= k < |a| && a[k] == b[i];
      assert Brings(row, a, k);
    }
  }

  /** A path is the row's own or came with an update the row accepts. */
  lemma {:induction false} PathComesFrom(row: Row, updates: seq<Update>)
    ensures var result := Scopes(row, updates);
      && (result == row || result.rev > row.rev || (result.rev == row.rev && row.identity.None? && result.identity.Some?))
      && (result.repository == row.repository || exists i :: Brings(row, updates, i) && result.repository == updates[i].repository.value)
    decreases |updates|
  {
    if updates != [] {
      var n := |updates| - 1;
      var before := updates[..n];
      PathComesFrom(row, before);
      var last, result := Scopes(row, before), Scopes(row, updates);
      if result.repository != row.repository {
        if Accepts(last, updates[n].rev) && updates[n].repository.Some? {
          assert Brings(row, updates, n);
        } else {
          var i :| Brings(row, before, i) && last.repository == before[i].repository.value;
          assert Brings(row, updates, i);
        }
      }
    }
  }

  lemma DistinctAt(updates: seq<Update>, i: nat, j: nat)
    requires Distinct(updates) && i < |updates| && j < |updates| && updates[i].rev == updates[j].rev
    ensures i == j
  {
  }

  lemma Same(row: Row, a: seq<Update>, b: seq<Update>, one: Row, other: Row, v: int, w: int)
    requires Distinct(a) && Distinct(b) && SameUpdates(a, b) && Won(row, a, one, v) && Won(row, b, other, w)
    ensures a[v] == b[w] && one.(repository := other.repository) == other
    ensures a[v].repository.Some? ==> one == other
  {
    var k :| 0 <= k < |b| && b[k] == a[v];
    var n :| 0 <= n < |a| && a[n] == b[w];
    assert b[k].rev <= b[w].rev && a[n].rev <= a[v].rev;
    DistinctAt(a, n, v);
  }

  // ---- exactly when the order matters ----

  function ToFront(updates: seq<Update>, k: nat): seq<Update>
    requires k < |updates|
  {
    [updates[k]] + updates[..k] + updates[k + 1..]
  }

  lemma SameToFront(updates: seq<Update>, k: nat)
    requires k < |updates| && Distinct(updates)
    ensures Distinct(ToFront(updates, k)) && SameUpdates(updates, ToFront(updates, k))
  {
    var moved := ToFront(updates, k);
    forall i | 0 <= i < |updates| ensures updates[i] in moved {
      assert moved[if i < k then i + 1 else if i == k then 0 else i] == updates[i];
    }
  }

  lemma SameIsTransitive(a: seq<Update>, b: seq<Update>, c: seq<Update>)
    requires SameUpdates(a, b) && SameUpdates(b, c)
    ensures SameUpdates(a, c)
  {
    forall i | 0 <= i < |a| ensures a[i] in c {
      var k :| 0 <= k < |b| && b[k] == a[i];
    }
    forall i | 0 <= i < |c| ensures c[i] in a {
      var k :| 0 <= k < |b| && b[k] == c[i];
    }
  }

  /** Two of the updates first, in either order, and the others after them. */
  lemma TwoFirst(a: seq<Update>, i: nat, j: nat) returns (one: seq<Update>, other: seq<Update>)
    requires Distinct(a) && i < |a| && j < |a| && i != j
    ensures Distinct(one) && SameUpdates(a, one) && Distinct(other) && SameUpdates(a, other)
    ensures |one| >= 2 && |other| >= 2 && one[2..] == other[2..]
    ensures one[0] == other[1] == a[i] && one[1] == other[0] == a[j]
  {
    SameToFront(a, j);
    var first := ToFront(a, j);
    var k :| 0 <= k < |first| && first[k] == a[i];
    assert k != 0;
    SameToFront(first, k);
    one := ToFront(first, k);
    SameIsTransitive(a, first, one);
    SameToFront(one, 1);
    other := ToFront(one, 1);
    SameIsTransitive(a, one, other);
  }

  lemma {:induction false} ScopesFirst(row: Row, first: Update, rest: seq<Update>)
    ensures Scopes(row, [first] + rest) == Scopes(Scoped(row, first), rest)
    decreases |rest|
  {
    hide Scoped;
    if rest == [] {
      assert ([first] + rest)[..0] == [];
    } else {
      ScopesFirst(row, first, rest[..|rest| - 1]);
      assert ([first] + rest)[..|rest|] == [first] + rest[..|rest| - 1];
    }
  }

  /** Nothing at or below a stored revision is accepted after it. */
  lemma {:induction false} NothingNewer(row: Row, updates: seq<Update>)
    requires row.identity.Some? && forall i :: 0 <= i < |updates| ==> updates[i].rev <= row.rev
    ensures Scopes(row, updates) == row
    decreases |updates|
  {
    if updates != [] {
      NothingNewer(row, updates[..|updates| - 1]);
    }
  }

  /** The newest and an older one that both start: whether the older one's path
      is kept depends on which of them comes first. */
  lemma FirstTwoDecide(row: Row, updates: seq<Update>)
    requires |updates| >= 2 && updates[0].rev != updates[1].rev
    requires Accepts(row, updates[0].rev) && Accepts(row, updates[1].rev)
    requires forall i :: 0 <= i < |updates| ==> updates[i].rev <= updates[0].rev || updates[i].rev <= updates[1].rev
    ensures Scopes(row, updates) == Scoped(Scoped(row, updates[0]), updates[1])
  {
    var after := Scoped(Scoped(row, updates[0]), updates[1]);
    var rest := updates[2..];
    assert updates == [updates[0]] + ([updates[1]] + rest);
    ScopesFirst(row, updates[0], [updates[1]] + rest);
    ScopesFirst(Scoped(row, updates[0]), updates[1], rest);
    NothingNewer(after, rest);
  }

  ghost predicate OrderFree(row: Row, updates: seq<Update>) {
    forall other :: Distinct(other) && SameUpdates(updates, other) ==> Scopes(row, other) == Scopes(row, updates)
  }

  /** Every order of the updates ends in the same row exactly when none of them
      can lose a path. */
  lemma {:induction false} OrderMattersExactly(row: Row, updates: seq<Update>)
    requires Distinct(updates)
    ensures OrderFree(row, updates) <==> NothingToLose(row, updates)
  {
    if NothingToLose(row, updates) {
      forall other | Distinct(other) && SameUpdates(updates, other)
        ensures Scopes(row, other) == Scopes(row, updates)
      {
        ScopeOrderDoesNotMatter(row, updates, other);
      }
    } else {
      var w, i :| Newest(row, updates, w) && updates[w].repository.None? && Brings(row, updates, i)
        && updates[i].repository.value != row.repository;
      var one, other := TwoFirst(updates, w, i);
      AllBelow(updates, one, w);
      AllBelow(updates, other, w);
      FirstTwoDecide(row, one);
      FirstTwoDecide(row, other);
      assert Scopes(row, one).repository != Scopes(row, other).repository;
    }
  }

  lemma AllBelow(a: seq<Update>, b: seq<Update>, w: nat)
    requires SameUpdates(a, b) && w < |a| && forall i :: 0 <= i < |a| ==> a[i].rev <= a[w].rev
    ensures forall i :: 0 <= i < |b| ==> b[i].rev <= a[w].rev
  {
    forall i | 0 <= i < |b| ensures b[i].rev <= a[w].rev {
      var k :| 0 <= k < |a| && a[k] == b[i];
    }
  }

  /** The smallest case: a repository scope followed by a newer project scope
      keeps its path; refused after it, it does not. */
  lemma RepositoryDependsOnOrder(row: Row, older: Update, newer: Update)
    requires row.rev < older.rev < newer.rev && newer.repository.None?
    requires older.repository.Some? && older.repository.value != row.repository
    ensures Scopes(row, [older, newer]).repository == older.repository.value
    ensures Scopes(row, [newer, older]).repository == row.repository
  {
    FirstTwoDecide(row, [older, newer]);
    FirstTwoDecide(row, [newer, older]);
  }
}
