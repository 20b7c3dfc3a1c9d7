/** The client's registry of workspaces: one table, one partial unique index,
    and writes that check what they replace. */
module Registry {
  import opened Decimal

  type Id = string

  datatype Row = Row(
    name: string, project: string, identity: Option<string>, repository: string, rev: nat, branch: Option<string>,
    host: Option<string>, path: Option<string>, session: Option<string>, daemon: Option<string>, status: string,
    created: int, seen: int, used: Option<int>)

  type Table = map<Id, Row>

  // ---- the survivor order: has a branch, opened last, smallest id ----

  /** Byte order of the UTF-8 forms, which is the order of the characters. */
  predicate Less(a: string, b: string) {
    if b == "" then false
    else if a == "" then true
    else if a[0] != b[0] then a[0] < b[0]
    else Less(a[1..], b[1..])
  }

  lemma {:induction false} LessIsTotal(a: string, b: string)
    ensures a != b ==> (Less(a, b) <==> !Less(b, a))
    ensures a == b ==> !Less(a, b)
  {
    if a != "" && b != "" && a[0] == b[0] {
      LessIsTotal(a[1..], b[1..]);
      if a[1..] == b[1..] {
        assert a == [a[0]] + a[1..] == b;
      }
    }
  }

  lemma {:induction false} LessIsTransitive(a: string, b: string, c: string)
    requires Less(a, b) && Less(b, c)
    ensures Less(a, c)
  {
    if a != "" && a[0] == b[0] && b[0] == c[0] {
      LessIsTransitive(a[1..], b[1..], c[1..]);
    }
  }

  predicate Better(t: Table, i: Id, j: Id)
    requires i in t && j in t
  {
    if t[i].branch.Some? != t[j].branch.Some? then t[i].branch.Some?
    else if t[i].seen != t[j].seen then t[i].seen > t[j].seen
    else Less(i, j)
  }

  lemma BetterIsTotal(t: Table, i: Id, j: Id)
    requires i in t && j in t
    ensures i != j ==> (Better(t, i, j) <==> !Better(t, j, i))
    ensures !Better(t, i, i)
  {
    LessIsTotal(i, j);
    LessIsTotal(i, i);
  }

  lemma BetterIsTransitive(t: Table, i: Id, j: Id, k: Id)
    requires i in t && j in t && k in t && Better(t, i, j) && Better(t, j, k)
    ensures Better(t, i, k)
  {
    if t[i].branch.Some? == t[k].branch.Some? && t[i].seen == t[k].seen {
      LessIsTransitive(i, j, k);
    }
  }

  predicate IsBest(t: Table, group: set<Id>, best: Id) {
    && best in group && group <= t.Keys
    && forall i :: i in group && i != best ==> Better(t, best, i)
  }

  lemma OneBest(t: Table, group: set<Id>, i: Id, j: Id)
    requires IsBest(t, group, i) && IsBest(t, group, j)
    ensures i == j
  {
    BetterIsTotal(t, i, j);
  }

  /** The best of a group that gains one row. */
  lemma BestGrows(t: Table, group: set<Id>, best: Id, i: Id)
    requires IsBest(t, group, best) && i in t
    ensures IsBest(t, group + {i}, if i != best && Better(t, i, best) then i else best)
  {
    BetterIsTotal(t, i, best);
    if i != best && Better(t, i, best) {
      forall j | j in group && j != i ensures Better(t, i, j) {
        if j != best {
          BetterIsTransitive(t, i, best, j);
        }
      }
    }
  }

  lemma {:induction false} SomeBest(t: Table, group: set<Id>) returns (best: Id)
    requires group != {} && group <= t.Keys
    ensures IsBest(t, group, best)
    decreases |group|
  {
    var i :| i in group;
    if group == {i} {
      best := i;
    } else {
      var rest := group - {i};
      assert rest != {};
      best := SomeBest(t, rest);
      BestGrows(t, rest, best, i);
      assert rest + {i} == group;
      best := if i != best && Better(t, i, best) then i else best;
    }
  }

  // ---- the index ----

  predicate Indexed(row: Row) { row.used.Some? && row.session.Some? }

  function Key(row: Row): string {
    match row.daemon
    case Some(daemon) => daemon
    case None => "\0" + if row.host.Some? then row.host.value else "\0"
  }

  predicate Clash(a: Row, b: Row) { Indexed(a) && Indexed(b) && Key(a) == Key(b) && a.session == b.session }

  /** One confirmed row per daemon record. */
  predicate IndexOk(t: Table) { forall i, j :: i in t && j in t && i != j ==> !Clash(t[i], t[j]) }

  /** No row but `id` owns what `row` would. */
  predicate Free(t: Table, id: Id, row: Row) { forall i :: i in t && i != id ==> !Clash(t[i], row) }

  /** What one written row does to the index. */
  lemma IndexAfterWrite(t: Table, id: Id, row: Row)
    requires IndexOk(t)
    ensures IndexOk(t[id := row]) <==> Free(t, id, row)
  {
    var after := t[id := row];
    if IndexOk(after) {
      forall i | i in t && i != id ensures !Clash(t[i], row) {
        assert after[i] == t[i] && after[id] == row;
      }
    } else {
      var i, j :| i in after && j in after && i != j && Clash(after[i], after[j]);
      assert i == id || j == id;
    }
  }

  // ---- the migration that makes the index possible ----

  predicate SameRecord(a: Row, b: Row) { Indexed(a) && Indexed(b) && a.host == b.host && a.session == b.session }

  predicate Victim(t: Table, i: Id)
    requires i in t
  {
    exists j :: j in t && j != i && SameRecord(t[j], t[i]) && Beats(t[j], j, t[i], i)
  }

  /** The survivor order as the migration spells it out. */
  predicate Beats(winner: Row, w: Id, victim: Row, v: Id) {
    || (winner.branch.Some? && victim.branch.None?)
    || (winner.branch.Some? == victim.branch.Some? && winner.seen > victim.seen)
    || (winner.branch.Some? == victim.branch.Some? && winner.seen == victim.seen && Less(w, v))
  }

  /** The migration and the later sort agree on who survives. */
  lemma BeatsIsBetter(t: Table, i: Id, j: Id)
    requires i in t && j in t
    ensures Beats(t[i], i, t[j], j) <==> Better(t, i, j)
  {
  }

  function Deduplicated(t: Table): Table { map i | i in t && !Victim(t, i) :: t[i] }

  function RecordOf(t: Table, i: Id): set<Id>
    requires i in t
  {
    set j | j in t && SameRecord(t[j], t[i])
  }

  /** The migration leaves exactly one row of every confirmed record, the best;
      it touches nothing else. */
  lemma MigrationKeepsTheBest(t: Table, i: Id) returns (best: Id)
    requires i in t && Indexed(t[i])
    ensures IsBest(t, RecordOf(t, i), best)
    ensures forall j :: j in RecordOf(t, i) ==> (j in Deduplicated(t) <==> j == best)
  {
    assert i in RecordOf(t, i);
    best := SomeBest(t, RecordOf(t, i));
    forall j | j in RecordOf(t, i) ensures Victim(t, j) <==> j != best {
      if j == best && Victim(t, j) {
        var k :| k in t && k != j && SameRecord(t[k], t[j]) && Beats(t[k], k, t[j], j);
        assert k in RecordOf(t, i);
        BeatsIsBetter(t, k, j);
        BetterIsTotal(t, j, k);
      }
      if j != best {
        BeatsIsBetter(t, best, j);
        assert SameRecord(t[best], t[j]) && Beats(t[best], best, t[j], j);
      }
    }
  }

  lemma OneRowLeft(t: Table, i: Id, j: Id)
    requires i in Deduplicated(t) && j in Deduplicated(t) && SameRecord(t[i], t[j])
    ensures i == j
  {
    assert i in RecordOf(t, i) && j in RecordOf(t, i);
    var best := MigrationKeepsTheBest(t, i);
  }

  lemma MigrationTouchesNothingElse(t: Table, i: Id)
    requires i in t
    ensures !Indexed(t[i]) ==> i in Deduplicated(t)
    ensures i in Deduplicated(t) ==> Deduplicated(t)[i] == t[i]
    ensures Deduplicated(t).Keys <= t.Keys
  {
  }

  /** The index cannot tell the local host from a host named by a single NUL. */
  predicate NulClash(a: Row, b: Row) {
    Indexed(a) && Indexed(b) && a.session == b.session && a.host == None && b.host == Some("\0")
  }

  lemma KeyTellsHosts(a: Row, b: Row)
    requires a.daemon.None? && b.daemon.None?
    ensures Clash(a, b) <==> SameRecord(a, b) || NulClash(a, b) || NulClash(b, a)
  {
    var x := if a.host.Some? then a.host.value else "\0";
    var y := if b.host.Some? then b.host.value else "\0";
    assert ("\0" + x)[1..] == x && ("\0" + y)[1..] == y;
  }

  /** With every daemon id still NULL the unique index can be created after the
      migration, except in that one case. */
  lemma IndexFollowsMigration(t: Table)
    requires forall i :: i in t ==> t[i].daemon.None?
    ensures IndexOk(Deduplicated(t)) <==> forall i, j :: i in t && j in t ==> !NulClash(t[i], t[j])
  {
    var after := Deduplicated(t);
    if i, j :| i in t && j in t && NulClash(t[i], t[j]) {
      var p := MigrationKeepsTheBest(t, i);
      var q := MigrationKeepsTheBest(t, j);
      assert p in after && q in after && NulClash(t[p], t[q]);
      KeyTellsHosts(t[p], t[q]);
      assert Clash(after[p], after[q]);
    } else {
      forall i, j | i in after && j in after && i != j ensures !Clash(after[i], after[j]) {
        KeyTellsHosts(t[i], t[j]);
        if SameRecord(t[i], t[j]) {
          OneRowLeft(t, i, j);
        }
      }
    }
  }

  /** Such a table: two confirmed rows of one session, one local and one on the
      host of that name. Neither is a duplicate and the index refuses both. */
  lemma TwoRowsTheIndexRefuses() returns (t: Table)
    ensures |t| == 2 && forall i :: i in t ==> t[i].daemon.None?
    ensures Deduplicated(t) == t && !IndexOk(t)
  {
    var local := Row("w", "p", None, "/r", 0, None, None, None, Some("s"), None, "open", 0, 0, Some(0));
    var named := local.(host := Some("\0"));
    t := map["a" := local, "b" := named];
    assert t.Keys == {"a", "b"} && |t.Keys| == 2;
    assert NulClash(t["a"], t["b"]);
    KeyTellsHosts(local, named);
    assert Clash(t["a"], t["b"]);
  }

  // ---- rows written by key ----

  function Rerouted(row: Row, host: Option<string>, daemon: Option<string>): Row { row.(host := host, daemon := daemon) }

  predicate Matches(t: Table, id: Id, host: Option<string>, daemon: Option<string>) {
    id in t && t[id].host == host && t[id].daemon == daemon
  }

  /** The rows bound to the daemon record (`daemon`, `session`). */
  predicate Owns(t: Table, i: Id, daemon: string, session: string) {
    i in t && t[i].used.Some? && t[i].daemon == Some(daemon) && t[i].session == Some(session)
  }

  lemma OneOwner(t: Table, i: Id, j: Id, daemon: string, session: string)
    requires IndexOk(t) && Owns(t, i, daemon, session) && Owns(t, j, daemon, session)
    ensures i == j
  {
    if i != j {
      assert Clash(t[i], t[j]);
    }
  }

  datatype Written = Failed | Refused | Applied

  datatype Resolution = Error | NoOwner | Survivor(id: Id)

  /** How `candidate` stands: the row the caller read, still as it was. */
  predicate StillCandidate(t: Table, candidate: Id, host: Option<string>, daemon: Option<string>, session: string) {
    Matches(t, candidate, host, daemon) && t[candidate].used.Some? && t[candidate].session == Some(session)
  }

  function SurvivorOf(t: Table, owner: Id, candidate: Id, contends: bool): Id
    requires owner in t && (contends ==> candidate in t)
  {
    if contends && candidate != owner && Better(t, candidate, owner) then candidate else owner
  }

  function Merged(t: Table, owner: Id, candidate: Id, contends: bool, host: Option<string>, daemon: string): Table
    requires owner in t && (contends ==> candidate in t)
  {
    var survivor := SurvivorOf(t, owner, candidate, contends);
    var losers := (if contends then {owner, candidate} else {owner}) - {survivor};
    (t - losers)[survivor := Rerouted(t[survivor], host, Some(daemon))]
  }

  // ---- scopes written by revision ----

  /** A project scope, or with `repository` a repository scope. */
  datatype Update = Update(rev: nat, project: string, identity: string, repository: Option<string>)

  predicate Accepts(row: Row, rev: nat) { row.rev < rev || (row.rev == rev && row.identity.None?) }

  function Scoped(row: Row, update: Update): Row {
    if !Accepts(row, update.rev) then row
    else row.(rev := update.rev, project := update.project, identity := Some(update.identity),
              repository := if update.repository.Some? then update.repository.value else row.repository)
  }

  // ---- the order in which quarantined rows are promoted ----

  /** This daemon's rows first, then the survivor order. */
  predicate Ahead(t: Table, daemon: Option<string>, i: Id, j: Id)
    requires i in t && j in t
  {
    var mine, theirs := daemon.Some? && t[i].daemon == daemon, daemon.Some? && t[j].daemon == daemon;
    if mine != theirs then mine else Better(t, i, j)
  }

  /** Spelled out: a row of this daemon's goes before any other; of two that are
      or two that are not, one with a branch first, then the one opened last, then
      the smaller id. */
  lemma AheadExactly(t: Table, daemon: Option<string>, i: Id, j: Id)
    requires i in t && j in t
    ensures var mine, theirs := daemon.Some? && t[i].daemon == daemon, daemon.Some? && t[j].daemon == daemon;
      Ahead(t, daemon, i, j) <==>
        || (mine && !theirs)
        || (mine == theirs && t[i].branch.Some? && t[j].branch.None?)
        || (mine == theirs && t[i].branch.Some? == t[j].branch.Some? && t[i].seen > t[j].seen)
        || (mine == theirs && t[i].branch.Some? == t[j].branch.Some? && t[i].seen == t[j].seen && Less(i, j))
  {
  }

  lemma AheadIsTotal(t: Table, daemon: Option<string>, i: Id, j: Id)
    requires i in t && j in t
    ensures i != j ==> (Ahead(t, daemon, i, j) <==> !Ahead(t, daemon, j, i))
    ensures !Ahead(t, daemon, i, i)
  {
    BetterIsTotal(t, i, j);
  }

  lemma AheadIsTransitive(t: Table, daemon: Option<string>, i: Id, j: Id, k: Id)
    requires i in t && j in t && k in t && Ahead(t, daemon, i, j) && Ahead(t, daemon, j, k)
    ensures Ahead(t, daemon, i, k)
  {
    if Better(t, i, j) && Better(t, j, k) {
      BetterIsTransitive(t, i, j, k);
    }
  }

  predicate InOrder(t: Table, daemon: Option<string>, ids: seq<Id>) {
    && (forall k :: 0 <= k < |ids| ==> ids[k] in t)
    && forall k, n :: 0 <= k < n < |ids| ==> Ahead(t, daemon, ids[k], ids[n])
  }

  function Ids(ids: seq<Id>): set<Id> { set k | 0 <= k < |ids| :: ids[k] }

  lemma NoIds(ids: seq<Id>)
    ensures Ids(ids) == {} <==> ids == []
  {
    if ids != [] {
      assert ids[0] in Ids(ids);
    }
  }

  /** The order is total, so there is one way to list any set of rows. */
  lemma {:induction false} OnePromotionOrder(t: Table, daemon: Option<string>, a: seq<Id>, b: seq<Id>)
    requires InOrder(t, daemon, a) && InOrder(t, daemon, b) && Ids(a) == Ids(b)
    ensures a == b
    decreases |a|
  {
    NoIds(a);
    NoIds(b);
    if a != [] {
      assert a[0] in Ids(b) && b[0] in Ids(a);
      var k :| 0 <= k < |b| && b[k] == a[0];
      var n :| 0 <= n < |a| && a[n] == b[0];
      AheadIsTotal(t, daemon, a[0], b[0]);
      IdsOfRest(t, daemon, a);
      IdsOfRest(t, daemon, b);
      OnePromotionOrder(t, daemon, a[1..], b[1..]);
      assert a == [a[0]] + a[1..] && b == [b[0]] + b[1..];
    }
  }

  lemma IdsOfRest(t: Table, daemon: Option<string>, ids: seq<Id>)
    requires InOrder(t, daemon, ids) && ids != []
    ensures InOrder(t, daemon, ids[1..]) && Ids(ids[1..]) == Ids(ids) - {ids[0]}
  {
    AheadIsTotal(t, daemon, ids[0], ids[0]);
    forall i | i in Ids(ids) - {ids[0]} ensures i in Ids(ids[1..]) {
      var k :| 0 <= k < |ids| && ids[k] == i;
      assert ids[1..][k - 1] == i;
    }
    forall i | i in Ids(ids[1..]) ensures i in Ids(ids) && i != ids[0] {
      var k :| 0 <= k < |ids[1..]| && ids[1..][k] == i;
      assert ids[k + 1] == i && Ahead(t, daemon, ids[0], ids[k + 1]);
    }
  }

  lemma NoContest(t: Table, owner: Id, candidate: Id, host: Option<string>, daemon: string)
    requires owner in t
    ensures Merged(t, owner, owner, true, host, daemon) == Merged(t, owner, candidate, false, host, daemon)
    ensures Merged(t, owner, owner, true, host, daemon) == Merged(t, owner, owner, false, host, daemon)
  {
    assert {owner, owner} - {owner} == {owner} - {owner};
  }

  class Registry {
    var rows: Table

    predicate Valid()
      reads this
    {
      IndexOk(rows)
    }

    /** An empty database: the migrations have nothing to collapse. */
    constructor ()
      ensures Valid() && rows == map[]
    {
      rows := map[];
    }

    /** A statement that writes: the index refuses it whole or not at all. */
    method Execute(t: Table) returns (ok: bool)
      modifies this
      ensures ok <==> IndexOk(t)
      ensures rows == if ok then t else old(rows)
    {
      ok := IndexOk(t);
      if ok {
        rows := t;
      }
    }

    /** The two steps of the migration on rows from before there were daemon ids. */
    method Migrate(legacy: Table) returns (ok: bool)
      requires forall i :: i in legacy ==> legacy[i].daemon.None?
      modifies this
      ensures ok <==> forall i, j :: i in legacy && j in legacy ==> !NulClash(legacy[i], legacy[j])
      ensures ok ==> Valid() && rows == Deduplicated(legacy)
      ensures !ok ==> rows == old(rows)
    {
      var victims := set i | i in legacy && Victim(legacy, i);
      IndexFollowsMigration(legacy);
      assert legacy - victims == Deduplicated(legacy);
      ok := Execute(legacy - victims);
    }

    /** A row with the same id is replaced whole; a row that already owns the
        daemon record is left alone. */
    method CreateWorkspace(id: Id, workspace: Row, now: int) returns (ok: bool)
      requires Valid()
      modifies this
      ensures Valid()
      ensures var row := workspace.(used := Some(now));
        && ok == (id !in old(rows) || Free(old(rows), id, row))
        && rows == if Free(old(rows), id, row) then old(rows)[id := row] else old(rows)
    {
      var row := workspace.(used := Some(now));
      IndexAfterWrite(rows, id, row);
      if id in rows {
        ok := Execute(rows[id := row]);
      } else if exists i :: i in rows && Clash(rows[i], row) {
        ok := true;
      } else {
        ok := Execute(rows[id := row]);
      }
    }

    /** Promotes a quarantined row nobody has claimed. */
    method ConfirmWorkspace(id: Id, host: Option<string>, daemon: Option<string>, at: int) returns (written: Written)
      requires Valid()
      modifies this
      ensures Valid()
      ensures written == Refused <==> !(id in old(rows) && old(rows)[id].used.None?)
      ensures written != Refused ==>
        var promoted := Rerouted(old(rows)[id], host, daemon).(used := Some(at), seen := at);
        (written == Applied <==> Free(old(rows), id, promoted))
        && (written == Applied ==> rows == old(rows)[id := promoted])
      ensures written != Applied ==> rows == old(rows)
    {
      if id !in rows || rows[id].used.Some? {
        return Refused;
      }
      var promoted := Rerouted(rows[id], host, daemon).(used := Some(at), seen := at);
      IndexAfterWrite(rows, id, promoted);
      var ok := Execute(rows[id := promoted]);
      written := if ok then Applied else Failed;
    }

    /** Rebinds a row that still has the route the caller read. */
    method RebindRoute(id: Id, expectedHost: Option<string>, expectedDaemon: Option<string>, host: Option<string>,
                       daemon: Option<string>) returns (written: Written)
      requires Valid()
      modifies this
      ensures Valid()
      ensures written == Refused <==> !Matches(old(rows), id, expectedHost, expectedDaemon)
      ensures written == Applied <==>
        Matches(old(rows), id, expectedHost, expectedDaemon) && Free(old(rows), id, Rerouted(old(rows)[id], host, daemon))
      ensures rows == if written == Applied then old(rows)[id := Rerouted(old(rows)[id], host, daemon)] else old(rows)
    {
      if !Matches(rows, id, expectedHost, expectedDaemon) {
        return Refused;
      }
      IndexAfterWrite(rows, id, Rerouted(rows[id], host, daemon));
      var ok := Execute(rows[id := Rerouted(rows[id], host, daemon)]);
      written := if ok then Applied else Failed;
    }

    /** Settles a rebind that met the owner of the daemon record: the better of
        the two rows stays, under the new route. */
    method ResolveRebindConflict(candidate: Id, expectedHost: Option<string>, expectedDaemon: Option<string>,
                                 host: Option<string>, daemon: Option<string>, session: string)
      returns (resolution: Resolution)
      requires Valid()
      modifies this
      ensures Valid()
      ensures resolution == NoOwner <==> daemon.None? || forall i :: i in old(rows) ==> !Owns(old(rows), i, daemon.value, session)
      ensures !resolution.Survivor? ==> rows == old(rows)
      ensures daemon.Some? ==> forall owner :: owner in old(rows) && Owns(old(rows), owner, daemon.value, session) ==>
        var contends := candidate in old(rows) && old(rows)[candidate].used.Some?
          && old(rows)[candidate].host == expectedHost && old(rows)[candidate].daemon == expectedDaemon
          && old(rows)[candidate].session == Some(session);
        var merged := Merged(old(rows), owner, candidate, contends, host, daemon.value);
        resolution == (if IndexOk(merged) then Survivor(SurvivorOf(old(rows), owner, candidate, contends)) else Error)
        && (IndexOk(merged) ==> rows == merged)
    {
      hide Less, Better, Clash, IndexOk;
      if daemon.None? {
        return NoOwner;
      }
      var owners := set i | i in rows && Owns(rows, i, daemon.value, session);
      if owners == {} {
        assert forall i :: i in rows && Owns(rows, i, daemon.value, session) ==> i in owners;
        return NoOwner;
      }
      var owner :| owner in owners;
      var before := rows;
      forall i | i in before && Owns(before, i, daemon.value, session) ensures i == owner {
        OneOwner(before, i, owner, daemon.value, session);
      }
      var contenders := [owner];
      if StillCandidate(rows, candidate, expectedHost, expectedDaemon, session) && candidate != owner {
        contenders := contenders + [candidate];
      } else {
        NoContest(rows, owner, candidate, host, daemon.value);
      }
      resolution := KeepTheBest(contenders, host, daemon.value);
    }

    /** Sorts the contenders, deletes all but the first and reroutes that one;
        if the index refuses, nothing of it happened. */
    method KeepTheBest(contenders: seq<Id>, host: Option<string>, daemon: string) returns (resolution: Resolution)
      requires 1 <= |contenders| <= 2 && forall k :: 0 <= k < |contenders| ==> contenders[k] in rows
      requires |contenders| == 2 ==> contenders[0] != contenders[1]
      requires Valid()
      modifies this
      ensures Valid()
      ensures var owner, candidate := contenders[0], contenders[|contenders| - 1];
        var merged := Merged(old(rows), owner, candidate, true, host, daemon);
        && resolution == (if IndexOk(merged) then Survivor(SurvivorOf(old(rows), owner, candidate, true)) else Error)
        && rows == if IndexOk(merged) then merged else old(rows)
    {
      hide Less, Better, Clash, IndexOk;
      var before := rows;
      var sorted := contenders;
      if |sorted| == 2 && Better(rows, sorted[1], sorted[0]) {
        sorted := [sorted[1], sorted[0]];
      }
      var survivor := sorted[0];
      var n := 1;
      while n < |sorted|
        invariant 1 <= n <= |sorted|
        invariant rows == if n == 2 then before - {sorted[1]} else before
      {
        rows := rows - {sorted[n]};
        n := n + 1;
      }
      var merged := rows[survivor := Rerouted(rows[survivor], host, Some(daemon))];
      assert before - {} == before;
      assert merged == Merged(before, contenders[0], contenders[|contenders| - 1], true, host, daemon);
      var ok := Execute(merged);
      if ok {
        resolution := Survivor(survivor);
      } else {
        rows := before;
        resolution := Error;
      }
    }

    /** `None` when the row is gone or quarantined, and nothing can be read back. */
    method UpdateProjectScope(id: Id, rev: nat, project: string, identity: string) returns (result: Option<(bool, Row)>)
      requires Valid()
      modifies this
      ensures Valid()
      ensures var update := Update(rev, project, identity, None);
        && rows == (if id in old(rows) then old(rows)[id := Scoped(old(rows)[id], update)] else old(rows))
        && result == if id in rows && rows[id].used.Some? then Some((Accepts(old(rows)[id], rev), rows[id])) else None
    {
      var applied := id in rows && (rows[id].rev < rev || (rows[id].rev == rev && rows[id].identity.None?));
      if applied {
        var row := rows[id].(rev := rev, project := project, identity := Some(identity));
        RescopedKeepsIndex(rows, id, row);
        rows := rows[id := row];
      }
      result := if id in rows && rows[id].used.Some? then Some((applied, rows[id])) else None;
    }

    method UpdateRepositoryScope(id: Id, repository: string, rev: nat, project: string, identity: string)
      returns (result: Option<(bool, Row)>)
      requires Valid()
      modifies this
      ensures Valid()
      ensures var update := Update(rev, project, identity, Some(repository));
        && rows == (if id in old(rows) then old(rows)[id := Scoped(old(rows)[id], update)] else old(rows))
        && result == if id in rows && rows[id].used.Some? then Some((Accepts(old(rows)[id], rev), rows[id])) else None
    {
      var applied := id in rows && (rows[id].rev < rev || (rows[id].rev == rev && rows[id].identity.None?));
      if applied {
        var row := rows[id].(repository := repository, rev := rev, project := project, identity := Some(identity));
        RescopedKeepsIndex(rows, id, row);
        rows := rows[id := row];
      }
      result := if id in rows && rows[id].used.Some? then Some((applied, rows[id])) else None;
    }

    /** Quarantined rows, in the order they are to be promoted. */
    method PromotionCandidates(daemon: Option<string>) returns (candidates: seq<Id>)
      ensures InOrder(rows, daemon, candidates)
      ensures forall k, n :: 0 <= k < n < |candidates| ==>
        && candidates[k] in rows && candidates[n] in rows
        && (daemon.Some? && rows[candidates[n]].daemon == daemon ==> rows[candidates[k]].daemon == daemon)
        && (rows[candidates[k]].daemon == rows[candidates[n]].daemon && rows[candidates[n]].branch.Some? ==>
             rows[candidates[k]].branch.Some?)
      ensures Ids(candidates) == set i | i in rows && rows[i].used.None?
    {
      var left := set i | i in rows && rows[i].used.None?;
      ghost var all := left;
      candidates := [];
      while left != {}
        invariant left <= all && all <= rows.Keys
        invariant InOrder(rows, daemon, candidates)
        invariant Ids(candidates) == all - left
        decreases left
      {
        var next :| next in left;
        left := left - {next};
        candidates := Insert(rows, daemon, candidates, next);
      }
    }
  }

  method Insert(t: Table, daemon: Option<string>, sorted: seq<Id>, next: Id) returns (r: seq<Id>)
    requires InOrder(t, daemon, sorted) && next in t && next !in Ids(sorted)
    ensures InOrder(t, daemon, r) && Ids(r) == Ids(sorted) + {next}
  {
    hide Ahead;
    var k := |sorted|;
    while k > 0 && Ahead(t, daemon, next, sorted[k - 1])
      invariant 0 <= k <= |sorted|
      invariant forall n :: k <= n < |sorted| ==> Ahead(t, daemon, next, sorted[n])
    {
      k := k - 1;
    }
    r := sorted[..k] + [next] + sorted[k..];
    forall n | 0 <= n < k ensures Ahead(t, daemon, sorted[n], next) {
      assert sorted[k - 1] in Ids(sorted);
      AheadIsTotal(t, daemon, sorted[k - 1], next);
      if n < k - 1 {
        AheadIsTransitive(t, daemon, sorted[n], sorted[k - 1], next);
      }
    }
    IdsInserted(sorted, k, next);
  }

  lemma IdsInserted(sorted: seq<Id>, k: nat, next: Id)
    requires k <= |sorted|
    ensures Ids(sorted[..k] + [next] + sorted[k..]) == Ids(sorted) + {next}
  {
    var r := sorted[..k] + [next] + sorted[k..];
    forall i | i in Ids(sorted) ensures i in Ids(r) {
      var n :| 0 <= n < |sorted| && sorted[n] == i;
      assert r[if n < k then n else n + 1] == i;
    }
    assert r[k] == next;
  }

  lemma RescopedKeepsIndex(t: Table, id: Id, row: Row)
    requires IndexOk(t) && id in t
    requires row.used == t[id].used && row.session == t[id].session && row.host == t[id].host && row.daemon == t[id].daemon
    ensures IndexOk(t[id := row])
  {
    IndexAfterWrite(t, id, row);
    assert Key(row) == Key(t[id]);
  }
}
