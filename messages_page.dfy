/** client/pages/admin/Messages.tsx: the inbox's status and search filters, the read
    toggle and the unread badge. */
module MessagesPage {
  import opened Wrappers
  import opened Lists
  import opened Text

  /** The message shape the page declares; `subject` is an ordinary string here. */
  datatype Message = Message(
    id: string, name: string, email: string, subject: string, message: string,
    phone: Option<string>, read: bool, date: string)

  datatype FilterStatus = All | Unread | Read

  predicate IsUnread(m: Message) { !m.read }
  predicate IsRead(m: Message) { m.read }

  predicate PassesStatus(m: Message, status: FilterStatus) {
    match status
    case All => true
    case Unread => !m.read
    case Read => m.read
  }

  /** Name, email, subject or body contains the query, ignoring ASCII case. */
  predicate MatchesQuery(m: Message, query: string) {
    var q := ToLower(query);
    Includes(ToLower(m.name), q) || Includes(ToLower(m.email), q) ||
    Includes(ToLower(m.subject), q) || Includes(ToLower(m.message), q)
  }

  /** Both filters of `applyFilters` as one test. */
  predicate PassesFilters(m: Message, query: string, status: FilterStatus) {
    PassesStatus(m, status) && (query != "" ==> MatchesQuery(m, query))
  }

  /** The status filter of `applyFilters`. */
  function StatusFiltered(msgs: seq<Message>, status: FilterStatus): (r: seq<Message>)
    ensures IsSubsequence(r, msgs)
    ensures forall k :: 0 <= k < |r| ==> PassesStatus(r[k], status)
    ensures forall k :: 0 <= k < |msgs| && PassesStatus(msgs[k], status) ==> msgs[k] in r
    ensures |r| == |set k | 0 <= k < |msgs| && PassesStatus(msgs[k], status)|
  {
    var keep := (m: Message) => PassesStatus(m, status);
    FilterLengthCounts(msgs, keep);
    assert Positions(msgs, keep) == set k | 0 <= k < |msgs| && PassesStatus(msgs[k], status);
    match status
    case Unread =>
      FilterIsSubsequence(msgs, IsUnread);
      FilterExt(msgs, IsUnread, keep);
      Filter(msgs, IsUnread)
    case Read =>
      FilterIsSubsequence(msgs, IsRead);
      FilterExt(msgs, IsRead, keep);
      Filter(msgs, IsRead)
    case All =>
      SubsequenceReflexive(msgs);
      FilterKeepsAll(msgs, keep);
      msgs
  }

  /** The search test of `applyFilters` as a function value. */
  function QueryTest(query: string): Message -> bool {
    (m: Message) => MatchesQuery(m, query)
  }

  /** Searching the status-filtered list keeps as many messages as pass both filters. */
  lemma SearchAfterStatusCount(msgs: seq<Message>, query: string, status: FilterStatus)
    requires query != ""
    ensures |Filter(StatusFiltered(msgs, status), QueryTest(query))| ==
            |set k | 0 <= k < |msgs| && PassesFilters(msgs[k], query, status)|
  {
    var both := (m: Message) => PassesFilters(m, query, status);
    match status {
      case Unread => FilterFilter(msgs, IsUnread, QueryTest(query), both);
      case Read => FilterFilter(msgs, IsRead, QueryTest(query), both);
      case All => FilterExt(msgs, QueryTest(query), both);
    }
    FilterLengthCounts(msgs, both);
    assert Positions(msgs, both) == set k | 0 <= k < |msgs| && PassesFilters(msgs[k], query, status);
  }

  /** `applyFilters`: the status filter, then the search filter when the query is non-empty. */
  function ApplyFilters(msgs: seq<Message>, query: string, status: FilterStatus): (r: seq<Message>)
    ensures IsSubsequence(r, msgs)
    ensures forall k :: 0 <= k < |r| ==> PassesFilters(r[k], query, status)
    ensures forall k :: 0 <= k < |msgs| && PassesFilters(msgs[k], query, status) ==> msgs[k] in r
    ensures |r| == |set k | 0 <= k < |msgs| && PassesFilters(msgs[k], query, status)|
    ensures query == "" ==> r == StatusFiltered(msgs, status)
    ensures query == "" && status == All ==> r == msgs
  {
    var filtered := StatusFiltered(msgs, status);
    if query == "" then
      assert (set k | 0 <= k < |msgs| && PassesFilters(msgs[k], query, status)) ==
             (set k | 0 <= k < |msgs| && PassesStatus(msgs[k], status));
      filtered
    else
      var keep := QueryTest(query);
      FilterIsSubsequence(filtered, keep);
      SubsequenceTransitive(Filter(filtered, keep), filtered, msgs);
      SearchAfterStatusCount(msgs, query, status);
      Filter(filtered, keep)
  }

  /** The list update after a successful toggle: every message with the id has its flag flipped. */
  function ToggleRead(msgs: seq<Message>, id: string): (r: seq<Message>)
    ensures |r| == |msgs|
    ensures forall k :: 0 <= k < |msgs| && msgs[k].id != id ==> r[k] == msgs[k]
    ensures forall k :: 0 <= k < |msgs| && msgs[k].id == id ==> r[k] == msgs[k].(read := !msgs[k].read)
  {
    Map(msgs, (m: Message) => if m.id == id then m.(read := !m.read) else m)
  }

  /** Toggling twice restores the list. */
  lemma ToggleTwiceRestores(msgs: seq<Message>, id: string)
    ensures ToggleRead(ToggleRead(msgs, id), id) == msgs
  {
    var twice := ToggleRead(ToggleRead(msgs, id), id);
    assert forall k :: 0 <= k < |msgs| ==> twice[k] == msgs[k];
  }

  /** `unreadCount`: the number of positions holding an unread message. */
  function UnreadCount(msgs: seq<Message>): (r: nat)
    ensures r == |set i | 0 <= i < |msgs| && !msgs[i].read|
  {
    FilterLengthCounts(msgs, IsUnread);
    assert Positions(msgs, IsUnread) == set i | 0 <= i < |msgs| && !msgs[i].read;
    |Filter(msgs, IsUnread)|
  }

  /** The unread filter with no query shows exactly as many messages as the badge counts. */
  lemma UnreadFilterMatchesBadge(msgs: seq<Message>)
    ensures |ApplyFilters(msgs, "", Unread)| == UnreadCount(msgs)
  {
    FilterLengthCounts(msgs, IsUnread);
    assert Positions(msgs, IsUnread) == set i | 0 <= i < |msgs| && !msgs[i].read;
  }
}
