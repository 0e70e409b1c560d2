/** Message history: cursor paging of a conversation, and attachments loaded in one batch. */
module Messages {
  import opened Sets
  import opened Wrappers

  type MessageId = nat
  type UserId = nat
  type GroupId = nat
  type Time = int

  datatype Message = Message(sender: UserId, recipient: Option<UserId>, group: Option<GroupId>, at: Time)

  type Table = map<MessageId, Message>

  datatype Conversation = InGroup(group: GroupId) | Between(a: UserId, b: UserId)

  predicate Belongs(m: Message, c: Conversation) {
    match c
    case InGroup(g) => m.group == Some(g)
    case Between(a, b) =>
      m.group.None? && ((m.sender == a && m.recipient == Some(b)) || (m.sender == b && m.recipient == Some(a)))
  }

  /** The messages of a conversation. */
  function Of(table: Table, c: Conversation): set<MessageId> {
    set id | id in table && Belongs(table[id], c)
  }

  function Older(table: Table, rows: set<MessageId>, at: Time): set<MessageId>
    requires rows <= table.Keys
  {
    set id | id in rows && table[id].at < at
  }

  /** The WHERE clause; the time of an unknown cursor is NULL and matches nothing. */
  function Selected(table: Table, c: Conversation, before: Option<MessageId>): set<MessageId> {
    match before
    case None => Of(table, c)
    case Some(id) => if id in table then Older(table, Of(table, c), table[id].at) else {}
  }

  /** The service's bounds on the page size. */
  function PageSize(limit: int): (r: int)
    ensures 1 <= r <= 100
    ensures 1 <= limit <= 100 ==> r == limit
    ensures !(1 <= limit <= 100) ==> r == 50
  {
    if limit <= 0 || limit > 100 then 50 else limit
  }

  /**
   * What ORDER BY created_at DESC LIMIT may return: a descending choice of distinct rows, as many
   * as the limit allows, with nothing newer left out. Rows of equal time come in any order.
   */
  ghost predicate IsPage(table: Table, rows: set<MessageId>, limit: nat, page: seq<MessageId>)
    requires rows <= table.Keys
  {
    && |page| == (if |rows| <= limit then |rows| else limit)
    && (forall i | 0 <= i < |page| :: page[i] in rows)
    && (forall i, j | 0 <= i < j < |page| :: page[i] != page[j] && table[page[i]].at >= table[page[j]].at)
    && (forall id, i | id in rows && id !in page && 0 <= i < |page| :: table[id].at <= table[page[i]].at)
  }

  /** A walk: each page continues before the last message of the one before, up to an empty page. */
  ghost predicate IsWalk(table: Table, c: Conversation, before: Option<MessageId>, limit: nat, pages: seq<seq<MessageId>>)
    decreases pages
  {
    && pages != [] && IsPage(table, Selected(table, c, before), limit, pages[0])
    && if pages[0] == [] then |pages| == 1
       else IsWalk(table, c, Some(pages[0][|pages[0]| - 1]), limit, pages[1..])
  }

  function Concat(pages: seq<seq<MessageId>>): seq<MessageId> {
    if pages == [] then [] else pages[0] + Concat(pages[1..])
  }

  // ------------------------------------------------------------ ties across a page boundary

  function NotOlder(table: Table, rows: set<MessageId>, at: Time): set<MessageId>
    requires rows <= table.Keys
  {
    set id | id in rows && table[id].at >= at
  }

  function Newer(table: Table, rows: set<MessageId>, at: Time): set<MessageId>
    requires rows <= table.Keys
  {
    set id | id in rows && table[id].at > at
  }

  /** Counting from the newest, position n falls between two messages of time `at`. */
  predicate Splits(table: Table, rows: set<MessageId>, at: Time, n: int)
    requires rows <= table.Keys
  {
    |Newer(table, rows, at)| < n < |NotOlder(table, rows, at)|
  }

  /** No multiple of the page size falls between messages of equal time. */
  ghost predicate CleanCuts(table: Table, rows: set<MessageId>, limit: nat)
    requires rows <= table.Keys
  {
    forall at: Time, k: nat | k > 0 :: !Splits(table, rows, at, k * limit)
  }

  // ------------------------------------------------------------ sets and pages

  /** A page and what the next query selects: everything else but the leftover ties of its last message. */
  lemma PageCut(table: Table, rows: set<MessageId>, limit: nat, page: seq<MessageId>)
    requires rows <= table.Keys && limit > 0 && IsPage(table, rows, limit, page) && page != []
    ensures var last := table[page[|page| - 1]].at;
            && Elements(page) <= NotOlder(table, rows, last)
            && Newer(table, rows, last) <= Elements(page)
            && page[|page| - 1] !in Newer(table, rows, last)
            && |Elements(page)| == |page|
  {
    DistinctSize(page);
  }

  /** Cutting off the messages down to a time shifts the counts by how many they are. */
  lemma CutShifts(table: Table, rows: set<MessageId>, last: Time, at: Time)
    requires rows <= table.Keys && at < last
    ensures var rest := Older(table, rows, last);
            && |Newer(table, rows, at)| == |NotOlder(table, rows, last)| + |Newer(table, rest, at)|
            && |NotOlder(table, rows, at)| == |NotOlder(table, rows, last)| + |NotOlder(table, rest, at)|
  {
    var rest := Older(table, rows, last);
    assert Newer(table, rows, at) == NotOlder(table, rows, last) + Newer(table, rest, at);
    assert NotOlder(table, rows, at) == NotOlder(table, rows, last) + NotOlder(table, rest, at);
  }

  lemma NextMultiple(k: nat, limit: nat)
    ensures (k + 1) * limit == k * limit + limit
    ensures k > 0 ==> k * limit >= limit
  {
    if k > 0 {
      assert (k - 1) * limit >= 0;
      assert k * limit == (k - 1) * limit + limit;
    }
  }

  /** After a full page, the cuts are clean exactly if this one is and those of the rest are. */
  lemma CleanCutsStep(table: Table, rows: set<MessageId>, limit: nat, last: Time)
    requires rows <= table.Keys && limit > 0
    requires |Newer(table, rows, last)| < limit <= |NotOlder(table, rows, last)|
    ensures CleanCuts(table, rows, limit) <==>
            |NotOlder(table, rows, last)| == limit && CleanCuts(table, Older(table, rows, last), limit)
  {
    var rest := Older(table, rows, last);
    if |NotOlder(table, rows, last)| > limit {
      NextMultiple(0, limit);
      assert Splits(table, rows, last, 1 * limit);
    } else {
      forall at: Time, k: nat | k > 0 && at < last
        ensures Splits(table, rows, at, (k + 1) * limit) <==> Splits(table, rest, at, k * limit)
      {
        CutShifts(table, rows, last, at);
        NextMultiple(k, limit);
      }
      CleanAbove(table, rows, limit, last);
      if CleanCuts(table, rest, limit) {
        CleanFromRest(table, rows, limit, last);
      } else {
        var at: Time, k: nat :| k > 0 && Splits(table, rest, at, k * limit);
        NextMultiple(k, limit);
        assert NotOlder(table, rest, at) != {};
        var id: MessageId :| id in NotOlder(table, rest, at);
        assert at < last;
        assert Splits(table, rows, at, (k + 1) * limit);
      }
    }
  }

  lemma CleanAbove(table: Table, rows: set<MessageId>, limit: nat, last: Time)
    requires rows <= table.Keys && limit > 0 && |NotOlder(table, rows, last)| == limit
    ensures forall at: Time, k: nat | k > 0 && (at >= last || k == 1) :: !Splits(table, rows, at, k * limit)
  {
    forall at: Time, k: nat | k > 0 && (at >= last || k == 1)
      ensures !Splits(table, rows, at, k * limit)
    {
      NextMultiple(k, limit);
      if at >= last {
        SubsetSize(NotOlder(table, rows, at), NotOlder(table, rows, last));
      } else {
        SubsetSize(NotOlder(table, rows, last), Newer(table, rows, at));
      }
    }
  }

  lemma CleanFromRest(table: Table, rows: set<MessageId>, limit: nat, last: Time)
    requires rows <= table.Keys && limit > 0 && |NotOlder(table, rows, last)| == limit
    requires CleanCuts(table, Older(table, rows, last), limit)
    ensures CleanCuts(table, rows, limit)
  {
    CleanAbove(table, rows, limit, last);
    forall at: Time, k: nat | k > 0
      ensures !Splits(table, rows, at, k * limit)
    {
      if at < last && k > 1 {
        CutShifts(table, rows, last, at);
        NextMultiple(k - 1, limit);
        assert !Splits(table, Older(table, rows, last), at, (k - 1) * limit);
      }
    }
  }

  // ------------------------------------------------------------ walks

  /** The rows a walk starting at a cursor can still reach. */
  lemma NextRows(table: Table, c: Conversation, before: Option<MessageId>, id: MessageId)
    requires id in Selected(table, c, before)
    ensures Selected(table, c, Some(id)) == Older(table, Selected(table, c, before), table[id].at)
  {
  }

  /** Distinct messages, newest first. */
  ghost predicate Descending(table: Table, ids: seq<MessageId>) {
    && (forall i | 0 <= i < |ids| :: ids[i] in table)
    && (forall i, j | 0 <= i < j < |ids| :: ids[i] != ids[j] && table[ids[i]].at >= table[ids[j]].at)
  }

  lemma DescendingConcat(table: Table, a: seq<MessageId>, b: seq<MessageId>, last: Time)
    requires Descending(table, a) && Descending(table, b)
    requires forall id | id in a :: table[id].at >= last
    requires forall id | id in b :: table[id].at < last
    ensures Descending(table, a + b)
  {
    var ab := a + b;
    forall i, j | 0 <= i < j < |ab|
      ensures ab[i] != ab[j] && table[ab[i]].at >= table[ab[j]].at
    {
      if i < |a| {
        assert ab[i] in a;
        if j >= |a| {
          assert ab[j] in b;
        }
      }
    }
  }

  lemma PageThenRest(table: Table, rows: set<MessageId>, limit: nat, page: seq<MessageId>, rest: seq<MessageId>)
    requires rows <= table.Keys && limit > 0 && IsPage(table, rows, limit, page) && page != []
    requires Elements(rest) <= Older(table, rows, table[page[|page| - 1]].at) && Descending(table, rest)
    ensures Elements(page + rest) <= rows && Descending(table, page + rest)
  {
    PageCut(table, rows, limit, page);
    assert forall x | x in rest :: x in Elements(rest);
    assert forall x | x in page :: x in Elements(page);
    DescendingConcat(table, page, rest, table[page[|page| - 1]].at);
    assert Elements(page + rest) == Elements(page) + Elements(rest);
  }

  /** Always: a walk goes down in time, returns rows of the conversation only, and none twice. */
  lemma {:induction false} WalkOrdered(
      table: Table, c: Conversation, before: Option<MessageId>, limit: nat, pages: seq<seq<MessageId>>)
    requires limit > 0 && IsWalk(table, c, before, limit, pages)
    ensures Elements(Concat(pages)) <= Selected(table, c, before)
    ensures Descending(table, Concat(pages))
    decreases pages
  {
    var page := pages[0];
    if page == [] {
      assert Concat(pages[1..]) == [];
    } else {
      var id := page[|page| - 1];
      NextRows(table, c, before, id);
      WalkOrdered(table, c, Some(id), limit, pages[1..]);
      PageThenRest(table, Selected(table, c, before), limit, page, Concat(pages[1..]));
    }
  }

  /** One page of the completeness argument, `tail` being all the later pages together. */
  lemma PageComplete(table: Table, rows: set<MessageId>, limit: nat, page: seq<MessageId>, tail: set<MessageId>)
    requires rows <= table.Keys && limit > 0 && IsPage(table, rows, limit, page) && page != []
    requires var rest := Older(table, rows, table[page[|page| - 1]].at);
             tail <= rest && (tail == rest <==> CleanCuts(table, rest, limit))
    ensures Elements(page) + tail == rows <==> CleanCuts(table, rows, limit)
  {
    var id := page[|page| - 1];
    var last := table[id].at;
    PageCut(table, rows, limit, page);
    SplitComplete(table, rows, last, Elements(page), tail);
    SubsetSize(Elements(page), NotOlder(table, rows, last));
    SubsetSize(Newer(table, rows, last) + {id}, Elements(page));
    if |page| == limit {
      CleanCutsStep(table, rows, limit, last);
    } else {
      SubsetSize(Elements(page), rows);
      FewRowsClean(table, rows, limit);
      FewRowsClean(table, Older(table, rows, last), limit);
    }
  }

  lemma {:induction false} WalkComplete(
      table: Table, c: Conversation, before: Option<MessageId>, limit: nat, pages: seq<seq<MessageId>>)
    requires limit > 0 && IsWalk(table, c, before, limit, pages)
    ensures Elements(Concat(pages)) == Selected(table, c, before) <==> CleanCuts(table, Selected(table, c, before), limit)
    decreases pages
  {
    var page, rest := pages[0], Concat(pages[1..]);
    if page == [] {
      assert rest == [];
      NoRowsClean(table, limit);
    } else {
      var id := page[|page| - 1];
      NextRows(table, c, before, id);
      WalkComplete(table, c, Some(id), limit, pages[1..]);
      WalkOrdered(table, c, Some(id), limit, pages[1..]);
      PageComplete(table, Selected(table, c, before), limit, page, Elements(rest));
      assert Elements(page + rest) == Elements(page) + Elements(rest);
    }
  }

  lemma SplitComplete(table: Table, rows: set<MessageId>, last: Time, page: set<MessageId>, tail: set<MessageId>)
    requires rows <= table.Keys && page <= NotOlder(table, rows, last) && tail <= Older(table, rows, last)
    ensures page + tail == rows <==> page == NotOlder(table, rows, last) && tail == Older(table, rows, last)
  {
    assert rows == NotOlder(table, rows, last) + Older(table, rows, last);
    if page + tail == rows {
      forall id | id in NotOlder(table, rows, last)
        ensures id in page
      {
        assert id in page + tail;
      }
      forall id | id in Older(table, rows, last)
        ensures id in tail
      {
        assert id in page + tail;
      }
    }
  }

  lemma NoRowsClean(table: Table, limit: nat)
    ensures CleanCuts(table, {}, limit)
  {
    forall at: Time, k: nat | k > 0
      ensures !Splits(table, {}, at, k * limit)
    {
      assert NotOlder(table, {}, at) == {};
      NextMultiple(k, limit);
    }
  }

  lemma FewRowsClean(table: Table, rows: set<MessageId>, limit: nat)
    requires rows <= table.Keys && |rows| <= limit
    ensures CleanCuts(table, rows, limit)
  {
    forall at: Time, k: nat | k > 0
      ensures !Splits(table, rows, at, k * limit)
    {
      SubsetSize(NotOlder(table, rows, at), rows);
      NextMultiple(k, limit);
    }
  }

  // ------------------------------------------------------------ results

  /**
   * Main result. A walk over an unchanging conversation, however the database orders messages of
   * equal time, returns messages newest first and none twice; and it returns all of them if and
   * only if no multiple of the page size falls between two messages of equal time.
   */
  lemma WalkReturnsAllExactlyWithCleanCuts(table: Table, c: Conversation, limit: int, pages: seq<seq<MessageId>>)
    requires IsWalk(table, c, None, PageSize(limit), pages)
    ensures var all := Concat(pages);
            && Descending(table, all) && Elements(all) <= Of(table, c)
            && (Elements(all) == Of(table, c) <==> CleanCuts(table, Of(table, c), PageSize(limit)))
  {
    WalkOrdered(table, c, None, PageSize(limit), pages);
    WalkComplete(table, c, None, PageSize(limit), pages);
  }

  /**
   * What "all of them" is, spelled out. A walk of a group with clean cuts returns exactly the
   * messages sent to that group, one of a direct conversation exactly those between the two users
   * in either direction, and from a cursor on exactly those of them that are older.
   */
  lemma CleanWalkReturnsConversation(
      table: Table, c: Conversation, before: Option<MessageId>, limit: int, pages: seq<seq<MessageId>>)
    requires IsWalk(table, c, before, PageSize(limit), pages)
    requires CleanCuts(table, Selected(table, c, before), PageSize(limit))
    ensures forall id :: id in Concat(pages) <==>
              && id in table
              && (match c
                  case InGroup(g) => table[id].group == Some(g)
                  case Between(a, b) =>
                    && table[id].group == None
                    && ((table[id].sender, table[id].recipient) == (a, Some(b))
                        || (table[id].sender, table[id].recipient) == (b, Some(a))))
              && (before.Some? ==> before.value in table && table[id].at < table[before.value].at)
  {
    WalkComplete(table, c, before, PageSize(limit), pages);
    assert forall id :: id in Concat(pages) <==> id in Elements(Concat(pages));
  }

  /** The two sides of a direct conversation see the same messages. */
  lemma SameForBothSides(table: Table, a: UserId, b: UserId, before: Option<MessageId>)
    ensures Selected(table, Between(a, b), before) == Selected(table, Between(b, a), before)
  {
    assert Of(table, Between(a, b)) == Of(table, Between(b, a));
  }

  ghost predicate DistinctTimes(table: Table, rows: set<MessageId>)
    requires rows <= table.Keys
  {
    forall a, b | a in rows && b in rows && table[a].at == table[b].at :: a == b
  }

  /** With distinct times every walk is complete, whatever the page size. */
  lemma DistinctTimesWalkComplete(table: Table, c: Conversation, limit: int, pages: seq<seq<MessageId>>)
    requires IsWalk(table, c, None, PageSize(limit), pages)
    requires DistinctTimes(table, Of(table, c))
    ensures Elements(Concat(pages)) == Of(table, c) && |Concat(pages)| == |Of(table, c)|
  {
    var rows := Of(table, c);
    forall at: Time, k: nat | k > 0
      ensures !Splits(table, rows, at, k * PageSize(limit))
    {
      var ties := NotOlder(table, rows, at) - Newer(table, rows, at);
      assert NotOlder(table, rows, at) == Newer(table, rows, at) + ties;
      if ties != {} {
        var id :| id in ties;
        assert ties == {id};
      }
    }
    WalkComplete(table, c, None, PageSize(limit), pages);
    WalkOrdered(table, c, None, PageSize(limit), pages);
    DistinctSize(Concat(pages));
  }

  /** Two messages of the same moment and pages of one: a walk that meets only one of them. */
  lemma TieLosesMessage(g: GroupId, sender: UserId, at: Time)
    ensures var m := Message(sender, None, Some(g), at);
            var table := map[0 := m, 1 := m];
            IsWalk(table, InGroup(g), None, PageSize(1), [[0], []]) && Of(table, InGroup(g)) == {0, 1}
  {
    var m := Message(sender, None, Some(g), at);
    var table := map[0 := m, 1 := m];
    assert Of(table, InGroup(g)) == {0, 1};
    assert Selected(table, InGroup(g), Some(0)) == {};
    assert [[0], []][1..] == [[]];
    assert IsWalk(table, InGroup(g), Some(0), 1, [[]]);
  }

  /** Pages fetched so far, none of them empty yet. */
  ghost predicate IsPartialWalk(
    table: Table, c: Conversation, before: Option<MessageId>, limit: nat, pages: seq<seq<MessageId>>)
    decreases pages
  {
    pages == [] ||
    (&& pages[0] != [] && IsPage(table, Selected(table, c, before), limit, pages[0])
     && IsPartialWalk(table, c, Some(pages[0][|pages[0]| - 1]), limit, pages[1..]))
  }

  /** Every walk ends: there are no more non-empty pages than messages. */
  lemma {:induction false} WalkEnds(
      table: Table, c: Conversation, before: Option<MessageId>, limit: nat, pages: seq<seq<MessageId>>)
    requires IsPartialWalk(table, c, before, limit, pages)
    ensures |pages| <= |Selected(table, c, before)|
    decreases pages
  {
    if pages != [] {
      var page := pages[0];
      var id := page[|page| - 1];
      NextRows(table, c, before, id);
      WalkEnds(table, c, Some(id), limit, pages[1..]);
      SubsetSize(Selected(table, c, Some(id)) + {id}, Selected(table, c, before));
    }
  }

  // ------------------------------------------------------------ attachments

  datatype Attachment = Attachment(id: nat, message: MessageId, at: Time)

  datatype WithAttachments = WithAttachments(id: MessageId, attachments: seq<Attachment>)

  function OfMessages(atts: seq<Attachment>, ids: set<MessageId>): seq<Attachment> {
    if atts == [] then []
    else if atts[0].message in ids then [atts[0]] + OfMessages(atts[1..], ids)
    else OfMessages(atts[1..], ids)
  }

  /** Puts an earlier row among sorted later ones, before those of equal time. */
  function Insert(a: Attachment, sorted: seq<Attachment>): seq<Attachment> {
    if sorted == [] || a.at <= sorted[0].at then [a] + sorted
    else [sorted[0]] + Insert(a, sorted[1..])
  }

  /** ORDER BY created_at ASC, keeping the table's order among equals. */
  function ByTime(atts: seq<Attachment>): seq<Attachment> {
    if atts == [] then [] else Insert(atts[0], ByTime(atts[1..]))
  }

  /** The query for a single message. */
  function AttachmentsOf(table: seq<Attachment>, id: MessageId): seq<Attachment> {
    ByTime(OfMessages(table, {id}))
  }

  predicate Ascending(atts: seq<Attachment>) {
    forall i, j | 0 <= i < j < |atts| :: atts[i].at <= atts[j].at
  }

  lemma {:induction false} InsertAscending(a: Attachment, sorted: seq<Attachment>)
    requires Ascending(sorted)
    ensures Ascending(Insert(a, sorted))
    ensures forall x :: x in Insert(a, sorted) <==> x == a || x in sorted
  {
    if sorted != [] && a.at > sorted[0].at {
      InsertAscending(a, sorted[1..]);
      var r := Insert(a, sorted[1..]);
      forall j | 0 <= j < |r|
        ensures sorted[0].at <= r[j].at
      {
        assert r[j] in r;
      }
    }
  }

  lemma {:induction false} ByTimeAscending(atts: seq<Attachment>)
    ensures Ascending(ByTime(atts))
  {
    if atts != [] {
      ByTimeAscending(atts[1..]);
      InsertAscending(atts[0], ByTime(atts[1..]));
    }
  }

  lemma {:induction false} NothingSmaller(atts: seq<Attachment>, ids: set<MessageId>, at: Time)
    requires forall a | a in atts :: at <= a.at
    ensures forall a | a in OfMessages(atts, ids) :: at <= a.at
  {
    if atts != [] {
      NothingSmaller(atts[1..], ids, at);
    }
  }

  lemma {:induction false} FilterInsert(a: Attachment, sorted: seq<Attachment>, ids: set<MessageId>)
    requires Ascending(sorted)
    ensures OfMessages(Insert(a, sorted), ids) ==
            if a.message in ids then Insert(a, OfMessages(sorted, ids)) else OfMessages(sorted, ids)
  {
    if sorted == [] || a.at <= sorted[0].at {
      assert ([a] + sorted)[1..] == sorted;
      NothingSmaller(sorted, ids, a.at);
    } else {
      FilterInsert(a, sorted[1..], ids);
      var r := Insert(a, sorted);
      assert r[1..] == Insert(a, sorted[1..]);
      if sorted[0].message in ids {
        assert OfMessages(sorted, ids)[1..] == OfMessages(sorted[1..], ids);
      }
    }
  }

  /** A stable sort commutes with a filter. */
  lemma {:induction false} FilterByTime(atts: seq<Attachment>, ids: set<MessageId>)
    ensures OfMessages(ByTime(atts), ids) == ByTime(OfMessages(atts, ids))
  {
    if atts != [] {
      FilterByTime(atts[1..], ids);
      ByTimeAscending(atts[1..]);
      FilterInsert(atts[0], ByTime(atts[1..]), ids);
      if atts[0].message in ids {
        assert OfMessages(atts, ids)[1..] == OfMessages(atts[1..], ids);
      }
    }
  }

  lemma {:induction false} FilterTwice(atts: seq<Attachment>, ids: set<MessageId>, id: MessageId)
    requires id in ids
    ensures OfMessages(OfMessages(atts, ids), {id}) == OfMessages(atts, {id})
  {
    if atts != [] {
      FilterTwice(atts[1..], ids, id);
      if atts[0].message in ids {
        assert OfMessages(atts, ids)[1..] == OfMessages(atts[1..], ids);
      }
    }
  }

  lemma {:induction false} FilterAppend(atts: seq<Attachment>, a: Attachment, ids: set<MessageId>)
    ensures OfMessages(atts + [a], ids) == OfMessages(atts, ids) + (if a.message in ids then [a] else [])
  {
    if atts == [] {
      assert atts + [a] == [a];
    } else {
      assert (atts + [a])[1..] == atts[1..] + [a];
      FilterAppend(atts[1..], a, ids);
    }
  }

  /** The batch query, regrouped: for a message of the batch, what its own query returns. */
  lemma BatchIsPerMessage(table: seq<Attachment>, ids: set<MessageId>, id: MessageId)
    requires id in ids
    ensures OfMessages(ByTime(OfMessages(table, ids)), {id}) == AttachmentsOf(table, id)
  {
    FilterByTime(OfMessages(table, ids), {id});
    FilterTwice(table, ids, id);
  }

  lemma {:induction false} InsertCounts(a: Attachment, sorted: seq<Attachment>)
    ensures multiset(Insert(a, sorted)) == multiset{a} + multiset(sorted)
  {
    if sorted != [] && a.at > sorted[0].at {
      InsertCounts(a, sorted[1..]);
      assert sorted == [sorted[0]] + sorted[1..];
    }
  }

  lemma {:induction false} ByTimeCounts(atts: seq<Attachment>)
    ensures multiset(ByTime(atts)) == multiset(atts)
  {
    if atts != [] {
      ByTimeCounts(atts[1..]);
      InsertCounts(atts[0], ByTime(atts[1..]));
      assert atts == [atts[0]] + atts[1..];
    }
  }

  lemma {:induction false} FilterCounts(atts: seq<Attachment>, ids: set<MessageId>, a: Attachment)
    ensures multiset(OfMessages(atts, ids))[a] == if a.message in ids then multiset(atts)[a] else 0
  {
    if atts != [] {
      FilterCounts(atts[1..], ids, a);
      assert atts == [atts[0]] + atts[1..];
    }
  }

  /** A message's list: its own rows, each as often as stored, in the order of their times. */
  lemma AttachmentsAre(table: seq<Attachment>, id: MessageId)
    ensures Ascending(AttachmentsOf(table, id))
    ensures forall a :: multiset(AttachmentsOf(table, id))[a] == if a.message == id then multiset(table)[a] else 0
  {
    ByTimeAscending(OfMessages(table, {id}));
    ByTimeCounts(OfMessages(table, {id}));
    forall a
      ensures multiset(AttachmentsOf(table, id))[a] == if a.message == id then multiset(table)[a] else 0
    {
      FilterCounts(table, {id}, a);
    }
  }

  function At(attMap: map<MessageId, seq<Attachment>>, id: MessageId): seq<Attachment> {
    if id in attMap then attMap[id] else []
  }

  /** The loop that files attachment rows under their messages. */
  method Grouped(attRows: seq<Attachment>) returns (attMap: map<MessageId, seq<Attachment>>)
    ensures forall id :: At(attMap, id) == OfMessages(attRows, {id})
  {
    attMap := map[];
    for i := 0 to |attRows|
      invariant forall id :: At(attMap, id) == OfMessages(attRows[..i], {id})
    {
      var a := attRows[i];
      assert attRows[..i + 1] == attRows[..i] + [a];
      forall id
        ensures OfMessages(attRows[..i + 1], {id}) == OfMessages(attRows[..i], {id}) + (if a.message == id then [a] else [])
      {
        FilterAppend(attRows[..i], a, {id});
      }
      attMap := attMap[a.message := At(attMap, a.message) + [a]];
    }
    assert attRows[..|attRows|] == attRows;
  }

  /** Runs a message query's rows through one batch query; each message gets what its own query would return. */
  method ScanMessagesWithAttachments(rows: seq<MessageId>, table: seq<Attachment>) returns (messages: seq<WithAttachments>)
    ensures |messages| == |rows|
    ensures forall i | 0 <= i < |rows| :: messages[i] == WithAttachments(rows[i], AttachmentsOf(table, rows[i]))
  {
    messages := [];
    var messageIds: set<MessageId> := {};
    for i := 0 to |rows|
      invariant |messages| == i && forall k | 0 <= k < i :: messages[k] == WithAttachments(rows[k], [])
      invariant messageIds == set k | 0 <= k < i :: rows[k]
    {
      messages := messages + [WithAttachments(rows[i], [])];
      messageIds := messageIds + {rows[i]};
    }
    if messages == [] {
      return;
    }
    var attMap := Grouped(ByTime(OfMessages(table, messageIds)));
    for i := 0 to |messages|
      invariant |messages| == |rows|
      invariant forall k | 0 <= k < i :: messages[k] == WithAttachments(rows[k], AttachmentsOf(table, rows[k]))
      invariant forall k | i <= k < |rows| :: messages[k] == WithAttachments(rows[k], [])
    {
      BatchIsPerMessage(table, messageIds, rows[i]);
      messages := messages[i := messages[i].(attachments := At(attMap, rows[i]))];
    }
  }
}
