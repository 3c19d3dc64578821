/** The counterparty directory: cursor-paged, first every GROUP that is the root of its own
    hierarchy, then every other Account. The Account query is a filter of a table ordered by Name and
    Id; `name` and `id` stand for their place in that order, and names are never blank. A row carries its
    name, the names of the Accounts above it, and whether its projection passes the role and direction
    filters in either phase. */
module CounterpartyDirectory {
  import opened Options
  import opened Sorting
  import opened Texts

  datatype Phase = Group | Account

  /** An Account above a row, the direct parent first. */
  datatype Ancestor = Ancestor(text: string, active: bool)

  datatype Row = Row(name: int, text: string, id: int, active: bool, ancestors: seq<Ancestor>, passesAsGroup: bool,
      passesAsAccount: bool)

  const GROUP := "GROUP"

  /** `/^GROUP(?:\s*-|\s|$)/i` on the trimmed name. */
  predicate IsGroupName(text: string) {
    var t := Trim(text);
    StartsWith(t, GROUP) && (|t| == |GROUP| || t[|GROUP|] == '-' || IsSpace(t[|GROUP|]))
  }

  /** `Name LIKE 'GROUP%'`. */
  predicate MatchesGroupQuery(r: Row) {
    StartsWith(r.text, GROUP)
  }

  /** The highest active Account of a chain that has a GROUP name is the last one. */
  predicate IsUltimateGroup(chain: seq<Ancestor>, k: nat)
    requires k < |chain|
  {
    && chain[k].active && IsGroupName(chain[k].text)
    && forall j :: k < j < |chain| ==> !(chain[j].active && IsGroupName(chain[j].text))
  }

  /** The row is the ultimate GROUP of its own chain. */
  predicate OwnRoot(r: Row) {
    IsUltimateGroup([Ancestor(r.text, r.active)] + r.ancestors, 0)
  }

  datatype Key = Key(name: int, id: int)

  datatype Cursor = Cursor(phase: Phase, after: Key)

  datatype Entry = Entry(entityType: Phase, row: Row)

  function KeyOf(r: Row): Key {
    Key(r.name, r.id)
  }

  predicate Before(a: Key, b: Key) {
    a.name < b.name || (a.name == b.name && a.id < b.id)
  }

  /** `ORDER BY Name,Id`. */
  predicate ComesBefore(a: Row, b: Row) {
    a.name < b.name || (a.name == b.name && a.id < b.id)
  }

  ghost predicate OrderedTable(table: seq<Row>) {
    forall i, j :: 0 <= i < j < |table| ==> ComesBefore(table[i], table[j])
  }

  /** The conditions of the query. */
  predicate Queried(r: Row, phase: Phase, after: Option<Key>) {
    && r.active
    && (phase.Group? ==> MatchesGroupQuery(r))
    && (after.Some? ==> Before(after.value, KeyOf(r)))
  }

  /** Every row the query of a phase still has to read. */
  function Unread(table: seq<Row>, phase: Phase, after: Option<Key>): seq<Row> {
    Filter((r: Row) => Queried(r, phase, after), table)
  }

  predicate Selected(r: Row, phase: Phase) {
    if phase.Group? then OwnRoot(r) && r.passesAsGroup else !OwnRoot(r) && r.passesAsAccount
  }

  function Select(rows: seq<Row>, phase: Phase): seq<Entry> {
    if rows == [] then []
    else (if Selected(rows[0], phase) then [Entry(phase, rows[0])] else []) + Select(rows[1..], phase)
  }

  /** What the phases after this one return. */
  function Tail(table: seq<Row>, phase: Phase): seq<Entry> {
    if phase.Group? then Select(Unread(table, Account, None), Account) else []
  }

  /** Everything the directory still has to return. */
  function Pending(table: seq<Row>, phase: Phase, after: Option<Key>): seq<Entry> {
    Select(Unread(table, phase, after), phase) + Tail(table, phase)
  }

  function PendingAt(table: seq<Row>, cursor: Option<Cursor>): seq<Entry> {
    if cursor.None? then Pending(table, Group, None) else Pending(table, cursor.value.phase, Some(cursor.value.after))
  }

  // ----- one query -----

  lemma {:induction false} FilterAgrees(p: Row -> bool, q: Row -> bool, s: seq<Row>)
    requires forall r :: r in s ==> p(r) == q(r)
    ensures Filter(p, s) == Filter(q, s)
  {
    if s != [] {
      assert s[0] in s;
      assert forall r :: r in s[1..] ==> r in s;
      FilterAgrees(p, q, s[1..]);
    }
  }

  /** Behind its first row a table is read as before. */
  lemma ReadOnFirst(table: seq<Row>, phase: Phase, after: Option<Key>)
    requires OrderedTable(table) && table != [] && Queried(table[0], phase, after)
    ensures Unread(table, phase, Some(KeyOf(table[0]))) == Unread(table[1..], phase, after)
  {
    var first, rest := table[0], table[1..];
    var p := (r: Row) => Queried(r, phase, Some(KeyOf(first)));
    var q := (r: Row) => Queried(r, phase, after);
    forall r | r in rest ensures p(r) == q(r) {
      assert ComesBefore(first, r);
    }
    FilterAgrees(p, q, rest);
  }

  /** Reading on from a row that was read continues right behind it. */
  lemma {:induction false} ReadOn(table: seq<Row>, phase: Phase, after: Option<Key>, k: nat)
    requires OrderedTable(table) && k < |Unread(table, phase, after)|
    ensures Unread(table, phase, Some(KeyOf(Unread(table, phase, after)[k]))) == Unread(table, phase, after)[k + 1..]
    decreases |table|
  {
    var first, rest := table[0], table[1..];
    var here := Unread(rest, phase, after);
    if Queried(first, phase, after) {
      assert Unread(table, phase, after) == [first] + here;
      if k == 0 {
        ReadOnFirst(table, phase, after);
      } else {
        ReadOn(rest, phase, after, k - 1);
        NotReadAgain(table, phase, after, here[k - 1]);
      }
    } else {
      ReadOn(rest, phase, after, k);
      NotReadAgain(table, phase, after, here[k]);
    }
  }

  /** The first row of a table does not come behind a later one. */
  lemma NotReadAgain(table: seq<Row>, phase: Phase, after: Option<Key>, later: Row)
    requires OrderedTable(table) && table != [] && later in Unread(table[1..], phase, after)
    ensures !Queried(table[0], phase, Some(KeyOf(later)))
  {
    FilterMembers((r: Row) => Queried(r, phase, after), table[1..]);
    var i :| 0 <= i < |table| - 1 && table[1..][i] == later;
    assert ComesBefore(table[0], table[i + 1]);
  }

  /** What a page may still hold, split at the row just read. */
  lemma {:induction false} PendingSplits(table: seq<Row>, phase: Phase, after: Option<Key>, k: nat)
    requires OrderedTable(table) && k < |Unread(table, phase, after)|
    ensures var row := Unread(table, phase, after)[k];
            Select(Unread(table, phase, after)[k..], phase) ==
            (if Selected(row, phase) then [Entry(phase, row)] else [])
                + Select(Unread(table, phase, Some(KeyOf(row))), phase)
  {
    ReadOn(table, phase, after, k);
    var unread := Unread(table, phase, after);
    assert unread[k..][1..] == unread[k + 1..];
  }

  // ----- one page -----

  function FetchLimit(limit: nat): nat {
    if limit * 2 > 50 then limit * 2 else 50
  }

  function PhaseRank(phase: Phase): nat {
    if phase.Group? then 1 else 0
  }

  /** One row read: the cursor moves behind it, and the page gains it if it belongs there. */
  lemma {:induction false} ReadStep(table: seq<Row>, phase: Phase, start: Option<Key>, k: nat, output: seq<Entry>)
    requires OrderedTable(table) && k < |Unread(table, phase, start)|
    ensures var unread := Unread(table, phase, start);
            && Unread(table, phase, Some(KeyOf(unread[k]))) == unread[k + 1..]
            && output + (if Selected(unread[k], phase) then [Entry(phase, unread[k])] else [])
                + Select(unread[k + 1..], phase)
               == output + Select(unread[k..], phase)
  {
    ReadOn(table, phase, start, k);
    PendingSplits(table, phase, start, k);
    var unread := Unread(table, phase, start);
    Regroup(output, if Selected(unread[k], phase) then [Entry(phase, unread[k])]
        else [], Select(unread[k + 1..], phase));
  }

  /** Goes through the rows of one query until the page is full. */
  method ReadCandidates(table: seq<Row>, phase: Phase, start: Option<Key>, candidates: seq<Row>, limit: nat,
                        output: seq<Entry>)
    returns (output': seq<Entry>, after: Option<Key>, full: bool)
    requires OrderedTable(table) && candidates != [] && |output| < limit
    requires candidates <= Unread(table, phase, start)
    ensures |output'| <= limit && (full <==> |output'| == limit)
    ensures output' + Pending(table, phase, after) == output + Pending(table, phase, start)
    ensures after.Some? && |Unread(table, phase, after)| < |Unread(table, phase, start)|
    ensures !full ==> Unread(table, phase, after) == Unread(table, phase, start)[|candidates|..]
  {
    output', after, full := output, start, false;
    ghost var unread := Unread(table, phase, start);
    var k := 0;
    while k < |candidates|
      invariant 0 <= k <= |candidates|
      invariant |output'| < limit && !full
      invariant Unread(table, phase, after) == unread[k..]
      invariant output' + Select(unread[k..], phase) == output + Select(unread, phase)
      invariant k > 0 ==> after.Some?
    {
      var candidate := candidates[k];
      assert candidate == unread[k];
      ReadStep(table, phase, start, k, output');
      assert output' + [] == output';
      after := Some(KeyOf(candidate));
      if Selected(candidate, phase) {
        output' := output' + [Entry(phase, candidate)];
      }
      k := k + 1;
      if |output'| >= limit {
        full := true;
        break;
      }
    }
    Regroup(output', Select(unread[k..], phase), Tail(table, phase));
    Regroup(output, Select(unread, phase), Tail(table, phase));
  }

  lemma GroupsRead(table: seq<Row>, after: Option<Key>)
    requires Unread(table, Group, after) == []
    ensures Pending(table, Group, after) == Pending(table, Account, None)
  {
    var accounts := Select(Unread(table, Account, None), Account);
    assert [] + accounts == accounts + [];
  }

  lemma AccountsRead(table: seq<Row>, after: Option<Key>)
    requires Unread(table, Account, after) == []
    ensures Pending(table, Account, after) == []
  {
  }

  /** Where a page stands: what it holds and what is still to come make up the rest of the directory. */
  ghost predicate OnCourse(table: seq<Row>, output: seq<Entry>, phase: Phase, after: Option<Key>, exhausted: bool,
                           whole: seq<Entry>) {
    output + (if exhausted then [] else Pending(table, phase, after)) == whole
  }

  /** Nothing unread: on to the Accounts, or done. */
  lemma PhaseEnds(table: seq<Row>, output: seq<Entry>, phase: Phase, after: Option<Key>, whole: seq<Entry>)
    requires OnCourse(table, output, phase, after, false, whole) && Unread(table, phase, after) == []
    ensures phase.Group? ==> OnCourse(table, output, Account, None, false, whole)
    ensures phase.Account? ==> OnCourse(table, output, phase, after, true, whole)
  {
    if phase.Group? {
      GroupsRead(table, after);
    } else {
      AccountsRead(table, after);
    }
  }

  method DirectoryIdentityPage(table: seq<Row>, cursor: Option<Cursor>, limit: nat)
    returns (accounts: seq<Entry>, nextCursor: Option<Cursor>)
    requires OrderedTable(table) && limit > 0
    ensures |accounts| <= limit
    ensures accounts + (if nextCursor.Some? then PendingAt(table, nextCursor) else []) == PendingAt(table, cursor)
    ensures nextCursor.Some? ==> |accounts| == limit
  {
    var output: seq<Entry> := [];
    var phase := if cursor.None? then Group else cursor.value.phase;
    var after := if cursor.None? then None else Some(cursor.value.after);
    var exhausted := false;
    ghost var whole := PendingAt(table, cursor);
    assert [] + whole == whole;
    while |output| < limit && !exhausted
      invariant |output| <= limit
      invariant OnCourse(table, output, phase, after, exhausted, whole)
      invariant |output| == limit ==> after.Some? && !exhausted
      decreases !exhausted, PhaseRank(phase), |Unread(table, phase, after)|
    {
      var unread := Unread(table, phase, after);
      var candidates := if |unread| <= FetchLimit(limit) then unread else unread[..FetchLimit(limit)];
      if candidates == [] {
        PhaseEnds(table, output, phase, after, whole);
        if phase.Group? {
          phase, after := Account, None;
          continue;
        }
        exhausted := true;
        break;
      }
      var full;
      output, after, full := ReadCandidates(table, phase, after, candidates, limit, output);
      if full {
        break;
      }
      if |candidates| < FetchLimit(limit) {
        PhaseEnds(table, output, phase, after, whole);
        if phase.Group? {
          phase, after := Account, None;
        } else {
          exhausted := true;
        }
      }
    }
    accounts := output;
    nextCursor := if !exhausted && after.Some? then Some(Cursor(phase, after.value)) else None;
  }

  // ----- all pages -----

  function Concat(pages: seq<seq<Entry>>): seq<Entry> {
    if pages == [] then [] else Concat(pages[..|pages| - 1]) + pages[|pages| - 1]
  }

  lemma {:induction false} ConcatStep(pages: seq<seq<Entry>>, page: seq<Entry>, rest: seq<Entry>)
    ensures Concat(pages + [page]) + rest == Concat(pages) + (page + rest)
  {
    assert (pages + [page])[..|pages|] == pages;
    Regroup(Concat(pages), page, rest);
  }

  function Rest(table: seq<Row>, cursor: Option<Cursor>, done: bool): seq<Entry> {
    if done then [] else PendingAt(table, cursor)
  }

  /** The pages so far: all within the limit, and full but for the last one when it is the end. */
  ghost predicate FullPages(pages: seq<seq<Entry>>, limit: nat, done: bool) {
    && (done ==> pages != [])
    && (forall k :: 0 <= k < |pages| ==> |pages[k]| <= limit)
    && (forall k :: 0 <= k < |pages| && !(done && k == |pages| - 1) ==> |pages[k]| == limit)
  }

  lemma OneMorePage(pages: seq<seq<Entry>>, page: seq<Entry>, limit: nat, done: bool)
    requires FullPages(pages, limit, false) && |page| <= limit && (!done ==> |page| == limit)
    ensures FullPages(pages + [page], limit, done)
  {
  }

  /** Following the cursor from null until it is null again. */
  method FollowCursor(table: seq<Row>, limit: nat) returns (pages: seq<seq<Entry>>)
    requires OrderedTable(table) && limit > 0
    ensures Concat(pages) == Pending(table, Group, None)
    ensures FullPages(pages, limit, true)
  {
    pages := [];
    var cursor: Option<Cursor> := None;
    var done := false;
    ghost var left := |PendingAt(table, None)|;
    while !done
      invariant Concat(pages) + Rest(table, cursor, done) == Pending(table, Group, None)
      invariant FullPages(pages, limit, done)
      invariant !done ==> left == |PendingAt(table, cursor)|
      decreases !done, left
    {
      var page, next := DirectoryIdentityPage(table, cursor, limit);
      ConcatStep(pages, page, Rest(table, next, next.None?));
      OneMorePage(pages, page, limit, next.None?);
      pages := pages + [page];
      left := left - |page|;
      done := next.None?;
      cursor := next;
    }
    assert Concat(pages) + [] == Concat(pages);
  }

  // ----- what the pages hold -----

  ghost predicate OrderedEntries(entries: seq<Entry>) {
    forall i, j :: 0 <= i < j < |entries| ==> ComesBefore(entries[i].row, entries[j].row)
  }

  lemma {:induction false} UnreadOrdered(table: seq<Row>, phase: Phase, after: Option<Key>)
    requires OrderedTable(table)
    ensures OrderedTable(Unread(table, phase, after))
  {
    if table != [] {
      var rest := Unread(table[1..], phase, after);
      UnreadOrdered(table[1..], phase, after);
      FilterMembers((r: Row) => Queried(r, phase, after), table[1..]);
      forall k | 0 <= k < |rest| ensures ComesBefore(table[0], rest[k]) {
        assert rest[k] in rest;
        var i :| 0 <= i < |table| - 1 && table[1..][i] == rest[k];
      }
    }
  }

  lemma {:induction false} SelectMembers(rows: seq<Row>, phase: Phase, e: Entry)
    ensures e in Select(rows, phase) <==> e.entityType == phase && e.row in rows && Selected(e.row, phase)
  {
    if rows != [] {
      assert rows == [rows[0]] + rows[1..];
      SelectMembers(rows[1..], phase, e);
    }
  }

  lemma {:induction false} SelectOrdered(rows: seq<Row>, phase: Phase)
    requires OrderedTable(rows)
    ensures OrderedEntries(Select(rows, phase))
  {
    if rows != [] {
      var rest := Select(rows[1..], phase);
      SelectOrdered(rows[1..], phase);
      forall k | 0 <= k < |rest| ensures ComesBefore(rows[0], rest[k].row) {
        SelectMembers(rows[1..], phase, rest[k]);
        var i :| 0 <= i < |rows| - 1 && rows[1..][i] == rest[k].row;
        assert ComesBefore(rows[0], rows[i + 1]);
      }
    }
  }

  // ----- roots, by their names -----

  /** Blanks aside the name is GROUP in any letter case, alone or before a hyphen or a blank. */
  predicate NamedGroup(text: string) {
    var t := Trim(text);
    && |t| >= 5 && Upper(t[0]) == 'G' && Upper(t[1]) == 'R' && Upper(t[2]) == 'O' && Upper(t[3]) == 'U'
    && Upper(t[4]) == 'P'
    && (|t| == 5 || t[5] == '-' || IsSpace(t[5]))
  }

  lemma NamedGroupIff(text: string)
    ensures IsGroupName(text) <==> NamedGroup(text)
  {
    assert GROUP == ['G', 'R', 'O', 'U', 'P'];
  }

  /** A row is its own root exactly if it is an active GROUP and no active GROUP lies above it. */
  lemma OwnRootIff(r: Row)
    ensures OwnRoot(r) <==>
            && r.active && NamedGroup(r.text)
            && forall j :: 0 <= j < |r.ancestors| && r.ancestors[j].active ==> !NamedGroup(r.ancestors[j].text)
  {
    var chain := [Ancestor(r.text, r.active)] + r.ancestors;
    assert forall j :: 0 < j < |chain| ==> chain[j] == r.ancestors[j - 1];
    assert forall j :: 0 <= j < |r.ancestors| ==> r.ancestors[j] == chain[j + 1];
    forall text ensures IsGroupName(text) <==> NamedGroup(text) {
      NamedGroupIff(text);
    }
  }

  /** An active row that the directory should list. */
  predicate Qualifies(r: Row) {
    r.active && if OwnRoot(r) then r.passesAsGroup else r.passesAsAccount
  }

  /** The groups come first, then the accounts, both by name and id, each row once. */
  lemma DirectoryOrder(table: seq<Row>)
    requires OrderedTable(table)
    ensures var groups, accounts := Select(Unread(table, Group, None), Group),
            Select(Unread(table, Account, None), Account);
            && Pending(table, Group, None) == groups + accounts
            && OrderedEntries(groups) && OrderedEntries(accounts)
            && (forall e :: e in groups ==> e.entityType == Group && OwnRoot(e.row))
            && (forall e :: e in accounts ==> e.entityType == Account && !OwnRoot(e.row))
            && DistinctBy(groups + accounts, (e: Entry) => e.row)
  {
    var groups, accounts := Select(Unread(table, Group, None), Group), Select(Unread(table, Account, None), Account);
    UnreadOrdered(table, Group, None);
    UnreadOrdered(table, Account, None);
    SelectOrdered(Unread(table, Group, None), Group);
    SelectOrdered(Unread(table, Account, None), Account);
    forall e ensures e in groups ==> e.entityType == Group && OwnRoot(e.row)
             ensures e in accounts ==> e.entityType == Account && !OwnRoot(e.row)
    {
      SelectMembers(Unread(table, Group, None), Group, e);
      SelectMembers(Unread(table, Account, None), Account, e);
    }
    var all := groups + accounts;
    forall i, j | 0 <= i < j < |all| ensures all[i].row != all[j].row {
      if j < |groups| {
        assert ComesBefore(groups[i].row, groups[j].row);
      } else if i >= |groups| {
        assert ComesBefore(accounts[i - |groups|].row, accounts[j - |groups|].row);
      } else {
        assert groups[i] in groups && accounts[j - |groups|] in accounts;
      }
    }
  }

  /** A row is listed exactly if it is in the table, active and passes the filters of its phase, and, if it is
      its own root, has a name that starts with GROUP. */
  lemma Listed(table: seq<Row>, r: Row)
    ensures (exists e :: e in Pending(table, Group, None) && e.row == r) <==>
            && r in table && r.active
            && if OwnRoot(r) then r.passesAsGroup && StartsWith(r.text, "GROUP") else r.passesAsAccount
  {
    var groups, accounts := Unread(table, Group, None), Unread(table, Account, None);
    FilterMembers((x: Row) => Queried(x, Group, None), table);
    FilterMembers((x: Row) => Queried(x, Account, None), table);
    SelectMembers(groups, Group, Entry(Group, r));
    SelectMembers(accounts, Account, Entry(Account, r));
    if e :| e in Pending(table, Group, None) && e.row == r {
      SelectMembers(groups, Group, e);
      SelectMembers(accounts, Account, e);
    }
    if r in table && Qualifies(r) && (OwnRoot(r) ==> MatchesGroupQuery(r)) {
      assert Entry(if OwnRoot(r) then Group else Account, r) in Pending(table, Group, None);
    }
  }

  /** A GROUP name matches the query's pattern unless it starts with a blank, which only the rule for
      roots trims. */
  lemma GroupNameMatchesIff(text: string)
    requires IsGroupName(text)
    ensures StartsWith(text, GROUP) <==> !IsSpace(text[0])
  {
    if !IsSpace(text[0]) {
      assert Trim(text) <= text;
    } else {
      assert forall c :: IsSpace(c) ==> Upper(c) != 'G';
    }
  }

  /** The directory is complete and exact exactly when no qualifying root has a name that starts with a
      blank; so it is for names without leading blanks. */
  lemma DirectoryIsComplete(table: seq<Row>)
    ensures (forall r :: r in table && Qualifies(r) <==> exists e :: e in Pending(table, Group, None) && e.row == r)
       <==> (forall r :: r in table && Qualifies(r) && OwnRoot(r) ==> !IsSpace(r.text[0]))
  {
    forall r ensures (exists e :: e in Pending(table, Group, None) && e.row == r)
                <==> r in table && Qualifies(r) && (OwnRoot(r) ==> !IsSpace(r.text[0]))
    {
      Listed(table, r);
      if OwnRoot(r) {
        GroupNameMatchesIff(r.text);
      }
    }
  }

  /** For example, a GROUP whose name starts with a blank qualifies and is not listed. */
  lemma BlankGroupIsLost()
    ensures var r := Row(0, " GROUP", 0, true, [], true, true);
            OwnRoot(r) && Qualifies(r) && !exists e :: e in Pending([r], Group, None) && e.row == r
  {
    var r := Row(0, " GROUP", 0, true, [], true, true);
    var name := "GROUP";
    assert r.text[0] == ' ' && r.text[1..] == name;
    assert TrimLeft(name) == name && TrimRight(name) == name;
    assert TrimLeft(r.text) == TrimLeft(name);
    assert StartsWith(name, GROUP);
    assert IsGroupName(r.text);
    assert [Ancestor(r.text, true)] + r.ancestors == [Ancestor(r.text, true)];
    Listed([r], r);
  }
}
