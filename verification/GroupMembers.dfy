/** The members of a GROUP: a breadth-first search down the active child links, at most twenty
    levels deep. The Account query is a filter of a table; rows come back in table order, which the
    result does not depend on. Only the first 50000 rows of a query would be returned; the model
    has no such limit. */
module GroupMembers {
  import opened Options
  import opened Sorting

  datatype Account = Account(id: int, parent: Option<int>, active: bool)

  datatype Result = Members(accounts: seq<Account>) | TooDeep

  const MAX_DEPTH := 20
  const CHUNK_SIZE := 200

  predicate IsChild(a: Account, parents: set<int>) {
    a.active && a.parent.Some? && a.parent.value in parents
  }

  function Query(table: seq<Account>, parents: seq<int>): seq<Account> {
    Filter((a: Account) => IsChild(a, AsSet(parents)), table)
  }

  function Ids(accounts: seq<Account>): set<int> {
    set a | a in accounts :: a.id
  }

  function Children(table: seq<Account>, parents: set<int>): set<int> {
    if table == [] then {}
    else (if IsChild(table[0], parents) then {table[0].id} else {}) + Children(table[1..], parents)
  }

  lemma {:induction false} ChildrenMembers(table: seq<Account>, parents: set<int>, id: int)
    ensures id in Children(table, parents) <==> exists a :: a in table && IsChild(a, parents) && a.id == id
  {
    if table != [] {
      ChildrenMembers(table[1..], parents, id);
      assert table == [table[0]] + table[1..];
    }
  }

  function Grow(table: seq<Account>, ids: set<int>): set<int> {
    ids + Children(table, ids)
  }

  /** The accounts at distance at most `n` from the group. */
  function Within(table: seq<Account>, group: int, n: nat): set<int> {
    if n == 0 then {group} else Grow(table, Within(table, group, n - 1))
  }

  ghost predicate Distinct(accounts: seq<Account>) {
    DistinctBy(accounts, (a: Account) => a.id)
  }

  lemma {:induction false} NobodysChildren(table: seq<Account>)
    ensures Children(table, {}) == {}
  {
    if table != [] {
      NobodysChildren(table[1..]);
    }
  }

  lemma {:induction false} ChildrenOfUnion(table: seq<Account>, a: set<int>, b: set<int>)
    ensures Children(table, a + b) == Children(table, a) + Children(table, b)
  {
    if table != [] {
      ChildrenOfUnion(table[1..], a, b);
    }
  }

  lemma {:induction false} QueryIds(table: seq<Account>, parents: seq<int>)
    ensures Ids(Query(table, parents)) == Children(table, AsSet(parents))
  {
    FilterMembers((a: Account) => IsChild(a, AsSet(parents)), table);
    forall id ensures id in Ids(Query(table, parents)) <==> id in Children(table, AsSet(parents)) {
      ChildrenMembers(table, AsSet(parents), id);
    }
  }

  /** The accounts first seen at distance `n`. */
  function Frontier(table: seq<Account>, group: int, n: nat): set<int> {
    if n == 0 then {group} else Within(table, group, n) - Within(table, group, n - 1)
  }

  /** One level down, only the children of the last level can be new. */
  lemma NextLevel(table: seq<Account>, group: int, n: nat)
    ensures Within(table, group, n + 1) == Within(table, group, n) + Children(table, Frontier(table, group, n))
  {
    if n > 0 {
      var before := Within(table, group, n - 1);
      var frontier := Frontier(table, group, n);
      assert Within(table, group, n) == before + frontier;
      ChildrenOfUnion(table, before, frontier);
    }
  }

  lemma {:induction false} Settled(table: seq<Account>, group: int, n: nat, m: nat)
    requires Within(table, group, n + 1) == Within(table, group, n) && m >= n
    ensures Within(table, group, m) == Within(table, group, n)
    decreases m
  {
    if m > n {
      Settled(table, group, n, m - 1);
      assert Within(table, group, m) == Grow(table, Within(table, group, m - 1));
      assert Within(table, group, n + 1) == Grow(table, Within(table, group, n));
    }
  }

  lemma {:induction false} WithinGrows(table: seq<Account>, group: int, n: nat, m: nat)
    requires n <= m
    ensures Within(table, group, n) <= Within(table, group, m)
    decreases m
  {
    if n < m {
      WithinGrows(table, group, n, m - 1);
    }
  }

  lemma IdsAppend(accounts: seq<Account>, account: Account)
    ensures Ids(accounts + [account]) == Ids(accounts) + {account.id}
  {
  }

  lemma NewIsDistinct(members: seq<Account>, account: Account)
    requires Distinct(members) && account.id !in Ids(members)
    ensures Distinct(members + [account])
  {
    assert forall j :: 0 <= j < |members| ==> members[j].id in Ids(members);
  }

  /** Adds the accounts not seen yet. */
  method AddUnseen(records: seq<Account>, members: seq<Account>, seen: set<int>, next: seq<int>)
    returns (members': seq<Account>, seen': set<int>, next': seq<int>)
    requires Distinct(members) && Ids(members) == seen
    ensures Distinct(members') && Ids(members') == seen' == seen + Ids(records)
    ensures AsSet(next') == AsSet(next) + (Ids(records) - seen)
    ensures forall a :: a in members' ==> a in members || a in records
    ensures members <= members'
  {
    members', seen', next' := members, seen, next;
    var k := 0;
    while k < |records|
      invariant 0 <= k <= |records|
      invariant Distinct(members') && Ids(members') == seen' == seen + Ids(records[..k])
      invariant AsSet(next') == AsSet(next) + (Ids(records[..k]) - seen)
      invariant forall a :: a in members' ==> a in members || a in records
      invariant members <= members'
    {
      var account := records[k];
      assert records[..k + 1] == records[..k] + [account];
      IdsAppend(records[..k], account);
      if account.id !in seen' {
        IdsAppend(members', account);
        NewIsDistinct(members', account);
        AsSetConcat(next', [account.id]);
        assert AsSet([account.id]) == {account.id};
        seen' := seen' + {account.id};
        members' := members' + [account];
        next' := next' + [account.id];
      }
      k := k + 1;
    }
    assert records[..k] == records;
  }

  function AsSet(ids: seq<int>): set<int> {
    set p | p in ids
  }

  lemma AsSetConcat(a: seq<int>, b: seq<int>)
    ensures AsSet(a + b) == AsSet(a) + AsSet(b)
  {
  }

  /** One level: the children of all parents, queried in chunks. */
  method ExpandLevel(table: seq<Account>, parentIds: seq<int>, members: seq<Account>, seen: set<int>)
    returns (members': seq<Account>, seen': set<int>, next: seq<int>)
    requires Distinct(members) && Ids(members) == seen
    ensures seen' == seen + Children(table, AsSet(parentIds))
    ensures AsSet(next) == seen' - seen
    ensures Distinct(members') && Ids(members') == seen'
    ensures forall a :: a in members' ==> a in members || a in table
    ensures members <= members'
  {
    members', seen', next := members, seen, [];
    var i := 0;
    assert AsSet(parentIds[..i]) == {};
    NobodysChildren(table);
    while i < |parentIds|
      invariant 0 <= i <= |parentIds|
      invariant seen' == seen + Children(table, AsSet(parentIds[..i]))
      invariant AsSet(next) == seen' - seen
      invariant Distinct(members') && Ids(members') == seen'
      invariant forall a :: a in members' ==> a in members || a in table
      invariant members <= members'
    {
      var end := if i + CHUNK_SIZE < |parentIds| then i + CHUNK_SIZE else |parentIds|;
      var chunk := parentIds[i..end];
      var records := Query(table, chunk);
      QueryIds(table, chunk);
      assert parentIds[..end] == parentIds[..i] + chunk;
      AsSetConcat(parentIds[..i], chunk);
      ChildrenOfUnion(table, AsSet(parentIds[..i]), AsSet(chunk));
      FilterMembers((a: Account) => IsChild(a, AsSet(chunk)), table);
      members', seen', next := AddUnseen(records, members', seen', next);
      i := end;
    }
    assert parentIds[..i] == parentIds;
  }

  /** What the search has established when it stops after at most `limit` levels. */
  ghost predicate SearchResult(table: seq<Account>, group: Account, limit: nat, members: seq<Account>, tooDeep: bool) {
    && (tooDeep <==> exists id :: AtDistance(table, group.id, id, limit))
    && (!tooDeep ==> forall id :: id in Ids(members) <==> Reachable(table, group.id, id))
    && Distinct(members)
    && (forall a :: a in members ==> a == group || a in table)
    && [group] <= members
  }

  /** The state of the search before level `depth` is expanded. */
  ghost predicate AtLevel(table: seq<Account>, group: Account, depth: nat, members: seq<Account>, seen: set<int>,
                          parentIds: seq<int>) {
    && seen == Within(table, group.id, depth)
    && AsSet(parentIds) == Frontier(table, group.id, depth)
    && Distinct(members) && Ids(members) == seen
    && (forall a :: a in members ==> a == group || a in table)
    && [group] <= members
  }

  lemma LevelGrows(table: seq<Account>, group: int, n: nat, known: set<int>, frontier: seq<int>, seen: set<int>,
                   next: seq<int>)
    requires known == Within(table, group, n) && AsSet(frontier) == Frontier(table, group, n)
    requires seen == known + Children(table, AsSet(frontier)) && AsSet(next) == seen - known
    ensures seen == Within(table, group, n + 1) && AsSet(next) == Frontier(table, group, n + 1)
  {
    NextLevel(table, group, n);
  }

  method SearchLevels(table: seq<Account>, group: Account, limit: nat) returns (members: seq<Account>, tooDeep: bool)
    requires limit > 0
    ensures SearchResult(table, group, limit, members, tooDeep)
  {
    members := [group];
    var seen := {group.id};
    var parentIds := [group.id];
    var depth := 0;
    while depth < limit && parentIds != []
      invariant 0 <= depth <= limit
      invariant AtLevel(table, group, depth, members, seen, parentIds)
    {
      ghost var known, frontier := seen, parentIds;
      members, seen, parentIds := ExpandLevel(table, parentIds, members, seen);
      LevelGrows(table, group.id, depth, known, frontier, seen, parentIds);
      depth := depth + 1;
    }
    SearchDone(table, group, limit, depth, parentIds, members);
    tooDeep := parentIds != [];
  }

  lemma {:induction false} SearchDone(table: seq<Account>, group: Account, limit: nat, depth: nat, parentIds: seq<int>,
                                      members: seq<Account>)
    requires 0 < limit && depth <= limit && (depth < limit ==> parentIds == [])
    requires AsSet(parentIds) == Frontier(table, group.id, depth)
    requires Distinct(members) && Ids(members) == Within(table, group.id, depth)
    requires forall a :: a in members ==> a == group || a in table
    requires [group] <= members
    ensures SearchResult(table, group, limit, members, parentIds != [])
  {
    assert parentIds == [] ==> Frontier(table, group.id, depth) == {};
    assert parentIds != [] ==> parentIds[0] in Frontier(table, group.id, depth);
    SearchEnds(table, group.id, depth, limit);
    SearchIsReachability(table, group.id, limit);
  }

  method LoadGroupMembers(table: seq<Account>, group: Option<Account>) returns (result: Result)
    ensures group.None? ==> result == Members([])
    ensures group.Some? ==> (result.TooDeep? <==> exists id :: AtDistance(table, group.value.id, id, 20))
    ensures group.Some? && result.Members? ==>
              && Distinct(result.accounts)
              && (forall id :: id in Ids(result.accounts) <==> Reachable(table, group.value.id, id))
              && (forall a :: a in result.accounts ==> a == group.value || a in table)
              && result.accounts != [] && result.accounts[0] == group.value
  {
    if group.None? {
      return Members([]);
    }
    var members, tooDeep := SearchLevels(table, group.value, MAX_DEPTH);
    return if tooDeep then TooDeep else Members(members);
  }

  /** An empty level means that no deeper level has anything new. */
  lemma SearchEnds(table: seq<Account>, group: int, depth: nat, limit: nat)
    requires depth <= limit && limit > 0
    requires Frontier(table, group, depth) == {} || depth == limit
    ensures Frontier(table, group, depth) == {} <==> Within(table, group, limit) == Within(table, group, limit - 1)
    ensures Frontier(table, group, depth) == {} ==> Within(table, group, depth) == Within(table, group, limit - 1)
  {
    NothingNew(table, group, depth);
    if Frontier(table, group, depth) == {} {
      SettledFrom(table, group, depth - 1, limit);
    }
  }

  lemma SettledFrom(table: seq<Account>, group: int, n: nat, limit: nat)
    requires n < limit && Within(table, group, n + 1) == Within(table, group, n)
    ensures Within(table, group, limit) == Within(table, group, n)
    ensures Within(table, group, limit - 1) == Within(table, group, n)
  {
    Settled(table, group, n, limit);
    Settled(table, group, n, limit - 1);
  }

  lemma NothingNew(table: seq<Account>, group: int, n: nat)
    ensures Frontier(table, group, n) == {} <==> n > 0 && Within(table, group, n) == Within(table, group, n - 1)
  {
    if n > 0 {
      var inner, outer := Within(table, group, n - 1), Within(table, group, n);
      WithinGrows(table, group, n - 1, n);
      assert outer == inner + (outer - inner);
    } else {
      assert group in Frontier(table, group, n);
    }
  }

  // ----- reachability -----

  /** An active link from a parent to a child. */
  ghost predicate Link(table: seq<Account>, parent: int, child: int) {
    exists a :: a in table && a.id == child && a.active && a.parent == Some(parent)
  }

  /** A chain of active links that starts at the group. */
  ghost predicate Chain(table: seq<Account>, group: int, path: seq<int>) {
    && path != []
    && path[0] == group
    && forall i :: 0 <= i < |path| - 1 ==> Link(table, path[i], path[i + 1])
  }

  ghost predicate ReachedBy(table: seq<Account>, group: int, path: seq<int>, id: int) {
    Chain(table, group, path) && path[|path| - 1] == id
  }

  ghost predicate Reachable(table: seq<Account>, group: int, id: int) {
    exists path :: ReachedBy(table, group, path, id)
  }

  /** The shortest chain to the account has `n` links. */
  ghost predicate AtDistance(table: seq<Account>, group: int, id: int, n: nat) {
    && (exists path :: ReachedBy(table, group, path, id) && |path| == n + 1)
    && (forall path :: ReachedBy(table, group, path, id) ==> |path| > n)
  }

  lemma {:induction false} ChainStaysWithin(table: seq<Account>, group: int, path: seq<int>)
    requires Chain(table, group, path)
    ensures path[|path| - 1] in Within(table, group, |path| - 1)
    decreases |path|
  {
    if |path| > 1 {
      var n := |path| - 2;
      var shorter := path[..n + 1];
      assert Chain(table, group, shorter);
      ChainStaysWithin(table, group, shorter);
      assert Link(table, path[n], path[n + 1]);
      var a :| a in table && a.id == path[n + 1] && a.active && a.parent == Some(path[n]);
      assert IsChild(a, Within(table, group, n));
      ChildrenMembers(table, Within(table, group, n), a.id);
    }
  }

  lemma {:induction false} WithinHasChain(table: seq<Account>, group: int, n: nat, id: int) returns (path: seq<int>)
    requires id in Within(table, group, n)
    ensures ReachedBy(table, group, path, id) && |path| <= n + 1
  {
    if n == 0 {
      path := [group];
    } else if id in Within(table, group, n - 1) {
      path := WithinHasChain(table, group, n - 1, id);
    } else {
      ChildrenMembers(table, Within(table, group, n - 1), id);
      var a :| a in table && IsChild(a, Within(table, group, n - 1)) && a.id == id;
      var shorter := WithinHasChain(table, group, n - 1, a.parent.value);
      path := shorter + [id];
      forall i | 0 <= i < |path| - 1 ensures Link(table, path[i], path[i + 1]) {
        if i < |shorter| - 1 {
          assert Link(table, shorter[i], shorter[i + 1]);
        }
      }
    }
  }

  lemma FarMeansNew(table: seq<Account>, group: int, id: int, n: nat)
    requires AtDistance(table, group, id, n)
    ensures id in Frontier(table, group, n)
  {
    var path :| ReachedBy(table, group, path, id) && |path| == n + 1;
    ChainStaysWithin(table, group, path);
    if n > 0 && id in Within(table, group, n - 1) {
      var shorter := WithinHasChain(table, group, n - 1, id);
    }
  }

  lemma NewMeansFar(table: seq<Account>, group: int, id: int, n: nat)
    requires id in Frontier(table, group, n)
    ensures AtDistance(table, group, id, n)
  {
    forall other | ReachedBy(table, group, other, id) ensures |other| > n {
      ChainStaysWithin(table, group, other);
      if 0 < |other| <= n {
        WithinGrows(table, group, |other| - 1, n - 1);
      }
    }
    var path := WithinHasChain(table, group, n, id);
  }

  lemma DistanceIsFrontier(table: seq<Account>, group: int, id: int, n: nat)
    ensures AtDistance(table, group, id, n) <==> id in Frontier(table, group, n)
  {
    if AtDistance(table, group, id, n) {
      FarMeansNew(table, group, id, n);
    } else if id in Frontier(table, group, n) {
      NewMeansFar(table, group, id, n);
    }
  }

  /** Level `limit` brings nothing new exactly when no account is `limit` links away; then the levels
      before it hold every account that any chain of links reaches. */
  lemma SearchIsReachability(table: seq<Account>, group: int, limit: nat)
    requires limit > 0
    ensures Within(table, group, limit) != Within(table, group, limit - 1)
       <==> exists id :: AtDistance(table, group, id, limit)
    ensures Within(table, group, limit) == Within(table, group, limit - 1) ==>
              forall id :: id in Within(table, group, limit - 1) <==> Reachable(table, group, id)
  {
    SomeoneAtDistance(table, group, limit);
    if Within(table, group, limit) == Within(table, group, limit - 1) {
      forall id ensures id in Within(table, group, limit - 1) <==> Reachable(table, group, id) {
        SettledIsReachable(table, group, limit - 1, id);
      }
    }
  }

  /** A level that the next one does not grow holds exactly what is reachable. */
  lemma SettledIsReachable(table: seq<Account>, group: int, n: nat, id: int)
    requires Within(table, group, n + 1) == Within(table, group, n)
    ensures id in Within(table, group, n) <==> Reachable(table, group, id)
  {
    if id in Within(table, group, n) {
      var path := WithinHasChain(table, group, n, id);
    }
    if path :| ReachedBy(table, group, path, id) {
      ChainStaysWithin(table, group, path);
      if |path| <= n {
        WithinGrows(table, group, |path| - 1, n);
      } else {
        Settled(table, group, n, |path| - 1);
      }
    }
  }

  lemma HasMember(ids: set<int>)
    ensures ids == {} || exists id :: id in ids
  {
    if forall id :: id !in ids {
      assert ids == {};
    }
  }

  lemma SomeoneAtDistance(table: seq<Account>, group: int, n: nat)
    requires n > 0
    ensures Within(table, group, n) != Within(table, group, n - 1) <==> exists id :: AtDistance(table, group, id, n)
  {
    NothingNew(table, group, n);
    if Frontier(table, group, n) != {} {
      HasMember(Frontier(table, group, n));
      var id :| id in Frontier(table, group, n);
      DistanceIsFrontier(table, group, id, n);
    }
    if id :| AtDistance(table, group, id, n) {
      DistanceIsFrontier(table, group, id, n);
    }
  }
}
