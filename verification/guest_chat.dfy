/** The guest chat page (src/pages/GuestChatPage.tsx): the search filter over
    the room catalog, the sidebar preview and highlight, and the page state
    `selectedRoom`, `searchQuery` and `isSidebarOpen` with the handlers that
    update it. The browser window width is a parameter of room selection. */
module GuestChat {
  import opened Types
  import opened Text
  import MockData

  /** The filter test: the room's name, lower-cased, contains the lower-cased
      query. */
  predicate Matches(room: ChatRoom, query: string)
    ensures query == [] ==> Matches(room, query)
    ensures Matches(room, query) ==> |query| <= |room.name|
  {
    if query == [] then
      assert ToLower(query) == [];
      ContainsEmpty(ToLower(room.name));
      Contains(ToLower(room.name), ToLower(query))
    else
      Contains(ToLower(room.name), ToLower(query))
  }

  /** filteredRooms: the rooms whose name matches the query, in catalog order. */
  function FilterRooms(rooms: seq<ChatRoom>, query: string): (r: seq<ChatRoom>)
    ensures forall room :: room in r <==> room in rooms && Matches(room, query)
    ensures forall room :: multiset(r)[room] == if Matches(room, query) then multiset(rooms)[room] else 0
    ensures |r| <= |rooms|
  {
    assert rooms != [] ==> rooms == [rooms[0]] + rooms[1..];
    if rooms == [] then []
    else (if Matches(rooms[0], query) then [rooms[0]] else []) + FilterRooms(rooms[1..], query)
  }

  /** The filter keeps the catalog order: its result is a subsequence. */
  lemma {:induction false} FilterKeepsOrder(rooms: seq<ChatRoom>, query: string)
    ensures IsSubsequence(FilterRooms(rooms, query), rooms)
  {
    if rooms != [] {
      FilterKeepsOrder(rooms[1..], query);
      var r := FilterRooms(rooms, query);
      if Matches(rooms[0], query) {
        assert r[0] == rooms[0] && r[1..] == FilterRooms(rooms[1..], query);
      } else {
        assert r == FilterRooms(rooms[1..], query);
        if r != [] {
          assert IsSubsequence(r, rooms[1..]);
        }
      }
    }
  }

  /** An empty search box shows the whole catalog, unchanged. */
  lemma {:induction false} EmptyQueryKeepsAll(rooms: seq<ChatRoom>)
    ensures FilterRooms(rooms, "") == rooms
  {
    if rooms != [] {
      assert ToLower("") == "";
      ContainsEmpty(ToLower(rooms[0].name));
      EmptyQueryKeepsAll(rooms[1..]);
    }
  }

  /** Only the query's letters matter, not their case: a query filters like its
      lower-cased and its upper-cased forms. */
  lemma {:induction false} FilterIgnoresCase(rooms: seq<ChatRoom>, query: string)
    ensures FilterRooms(rooms, ToLower(query)) == FilterRooms(rooms, query)
    ensures FilterRooms(rooms, ToUpper(query)) == FilterRooms(rooms, query)
  {
    LowerForgetsCase(query);
    if rooms != [] {
      FilterIgnoresCase(rooms[1..], query);
    }
  }

  /** Typing more characters can only narrow the list: the rooms shown for an
      extended query are a subsequence of those shown before. */
  lemma {:induction false} ExtendingQueryNarrows(rooms: seq<ChatRoom>, p: string, q: string)
    requires p <= q
    ensures IsSubsequence(FilterRooms(rooms, q), FilterRooms(rooms, p))
    ensures forall room :: room in FilterRooms(rooms, q) ==> room in FilterRooms(rooms, p)
  {
    if rooms != [] {
      ExtendingQueryNarrows(rooms[1..], p, q);
      var rp, rq := FilterRooms(rooms, p), FilterRooms(rooms, q);
      var tp, tq := FilterRooms(rooms[1..], p), FilterRooms(rooms[1..], q);
      ToLowerPrefix(p, q);
      if Matches(rooms[0], q) {
        ContainsPrefix(ToLower(rooms[0].name), ToLower(p), ToLower(q));
        assert rp[0] == rooms[0] && rp[1..] == tp;
        assert rq[0] == rooms[0] && rq[1..] == tq;
      } else if Matches(rooms[0], p) {
        assert rq == tq;
        assert rp[1..] == tp;
        SubsequenceOfTail(rq, rp);
      } else {
        assert rq == tq && rp == tp;
      }
    }
  }

  /** A subsequence of the tail of ys is a subsequence of ys. */
  lemma {:induction false} SubsequenceOfTail<T>(xs: seq<T>, ys: seq<T>)
    requires ys != [] && IsSubsequence(xs, ys[1..])
    ensures IsSubsequence(xs, ys)
  {
  }

  /** A name with an "a" or "A" at position k matches the query "a". */
  lemma NameWithA(name: string, k: nat)
    requires k < |name| && (name[k] == 'a' || name[k] == 'A')
    ensures Contains(ToLower(name), ToLower("a"))
  {
    assert ToLower("a") == "a";
    assert OccursAt(ToLower(name), "a", k);
  }

  /** Every room name of the catalog contains an "a" (in either case), so the
      query "a" keeps all ten rooms. */
  lemma CatalogQueryA(draws: seq<MockData.Draw>)
    requires MockData.ValidDraws(draws)
    ensures FilterRooms(MockData.MockChatRooms(draws), "a") == MockData.MockChatRooms(draws)
  {
    var rooms := MockData.MockChatRooms(draws);
    forall i | 0 <= i < |rooms|
      ensures Matches(rooms[i], "a")
    {
      var name := MockData.CatalogEntry(i).name;
      assert rooms[i].name == name;
      if i == 0 { NameWithA(name, 4); }
      else if i == 1 { NameWithA(name, 9); }
      else if i == 2 { NameWithA(name, 4); }
      else if i == 3 { NameWithA(name, 1); }
      else if i == 4 { NameWithA(name, 0); }
      else if i == 5 { NameWithA(name, 4); }
      else if i == 6 { NameWithA(name, 2); }
      else if i == 7 { NameWithA(name, 1); }
      else if i == 8 { NameWithA(name, 2); }
      else { NameWithA(name, 6); }
    }
    AllMatchKeepsAll(rooms, "a");
  }

  /** A query every room matches keeps the whole list. */
  lemma {:induction false} AllMatchKeepsAll(rooms: seq<ChatRoom>, query: string)
    requires forall i :: 0 <= i < |rooms| ==> Matches(rooms[i], query)
    ensures FilterRooms(rooms, query) == rooms
  {
    if rooms != [] {
      AllMatchKeepsAll(rooms[1..], query);
    }
  }

  const NoMessages := "No messages yet"

  /** The sidebar preview line of a room: the last message as
      "<sender name>: <content>", or a placeholder for an empty room. */
  function Preview(room: ChatRoom): (p: string)
    ensures p != []
    ensures |room.messages| > 0 ==>
      var last := room.messages[|room.messages| - 1];
      |p| == |last.sender.name| + 2 + |last.content|
  {
    if |room.messages| > 0 then
      var last := room.messages[|room.messages| - 1];
      last.sender.name + ": " + last.content
    else NoMessages
  }

  /** The placeholder is shown exactly for rooms without messages: it holds no
      colon, which a real preview always does. */
  lemma PreviewPlaceholderIffEmpty(room: ChatRoom)
    ensures Preview(room) == NoMessages <==> |room.messages| == 0
    ensures |room.messages| > 0 ==>
      var last := room.messages[|room.messages| - 1];
      && Preview(room)[..|last.sender.name|] == last.sender.name
      && Preview(room)[|last.sender.name|..|last.sender.name| + 2] == ": "
      && Preview(room)[|Preview(room)| - |last.content|..] == last.content
  {
    if |room.messages| > 0 {
      var last := room.messages[|room.messages| - 1];
      var p := Preview(room);
      assert p[|last.sender.name|] == ':';
      assert forall k :: 0 <= k < |NoMessages| ==> NoMessages[k] != ':';
    }
  }

  /** Every catalog room previews its sixth message, sent by bot 5 ("Morgan"). */
  lemma CatalogPreview(draws: seq<MockData.Draw>, i: nat)
    requires MockData.ValidDraws(draws) && i < MockData.CatalogSize
    ensures var room := MockData.MockChatRooms(draws)[i];
      Preview(room) == "Morgan: " + MockData.Topics(MockData.CatalogEntry(i).seed)[draws[i].topicIndex].messages[5]
  {
    MockData.CatalogConversations(draws);
    MockData.ConversationFollowsTemplate(MockData.CatalogEntry(i).seed, draws[i].topicIndex, draws[i].now);
  }

  /** The highlight test: a room is highlighted when a room is selected and
      their ids agree. */
  predicate IsHighlighted(selected: Option<ChatRoom>, room: ChatRoom)
    ensures selected == Some(room) ==> IsHighlighted(selected, room)
    ensures selected.None? ==> !IsHighlighted(selected, room)
  {
    selected.Some? && selected.value.id == room.id
  }

  /** With the catalog's distinct ids, selecting catalog room k highlights
      room k and no other. */
  lemma CatalogHighlightsOne(draws: seq<MockData.Draw>, k: nat)
    requires MockData.ValidDraws(draws) && k < MockData.CatalogSize
    ensures var rooms := MockData.MockChatRooms(draws);
      forall i :: 0 <= i < |rooms| ==> (IsHighlighted(Some(rooms[k]), rooms[i]) <==> i == k)
  {
    MockData.CatalogIds(draws);
  }

  /** The page state as a value. */
  datatype ViewState = ViewState(selectedRoom: Option<ChatRoom>, searchQuery: string, isSidebarOpen: bool)

  /** The state at first render: nothing selected, empty search, sidebar open. */
  const InitialState := ViewState(None, "", true)

  /** The mount effect: select the first room when the catalog is non-empty
      and nothing is selected yet. */
  function Mounted(rooms: seq<ChatRoom>, s: ViewState): ViewState
  {
    if |rooms| > 0 && s.selectedRoom.None? then s.(selectedRoom := Some(rooms[0])) else s
  }

  /** handleRoomSelect: select the room; on a window narrower than 768 pixels
      also close the sidebar. */
  function RoomSelected(s: ViewState, room: ChatRoom, windowWidth: int): ViewState
  {
    var s' := s.(selectedRoom := Some(room));
    if windowWidth < 768 then s'.(isSidebarOpen := false) else s'
  }

  /** toggleSidebar. */
  function SidebarToggled(s: ViewState): ViewState
  {
    s.(isSidebarOpen := !s.isSidebarOpen)
  }

  /** The search input's change handler. */
  function QueryChanged(s: ViewState, query: string): ViewState
  {
    s.(searchQuery := query)
  }

  /** After mounting on the catalog the first room, England, is selected, the
      search is empty and the whole catalog is listed; mounting again changes
      nothing. */
  lemma MountSelectsFirstRoom(draws: seq<MockData.Draw>)
    requires MockData.ValidDraws(draws)
    ensures var rooms := MockData.MockChatRooms(draws);
      var s := Mounted(rooms, InitialState);
      && s.selectedRoom == Some(rooms[0]) && rooms[0].name == "England"
      && s.isSidebarOpen && FilterRooms(rooms, s.searchQuery) == rooms
      && Mounted(rooms, s) == s
  {
    EmptyQueryKeepsAll(MockData.MockChatRooms(draws));
  }

  /** The mount effect only ever fills an empty selection: a state that already
      has a selection, or an empty catalog, is left as it is. */
  lemma MountKeepsSelection(rooms: seq<ChatRoom>, s: ViewState)
    ensures s.selectedRoom.Some? || rooms == [] ==> Mounted(rooms, s) == s
    ensures Mounted(rooms, s).selectedRoom.Some? <==> s.selectedRoom.Some? || rooms != []
    ensures Mounted(rooms, Mounted(rooms, s)) == Mounted(rooms, s)
  {
  }

  /** Selecting a room selects exactly it, keeps the search, and closes the
      sidebar exactly on a narrow window when it was open. */
  lemma SelectRoomEffect(s: ViewState, room: ChatRoom, windowWidth: int)
    ensures var t := RoomSelected(s, room, windowWidth);
      && t.selectedRoom == Some(room)
      && t.searchQuery == s.searchQuery
      && (t.isSidebarOpen <==> s.isSidebarOpen && windowWidth >= 768)
      && IsHighlighted(t.selectedRoom, room)
  {
  }

  /** Toggling twice restores the state; a toggle touches only the sidebar. */
  lemma ToggleTwiceRestores(s: ViewState)
    ensures SidebarToggled(SidebarToggled(s)) == s
    ensures SidebarToggled(s).isSidebarOpen != s.isSidebarOpen
    ensures SidebarToggled(s).selectedRoom == s.selectedRoom && SidebarToggled(s).searchQuery == s.searchQuery
  {
  }

  /** Typing in the search box sets the query and never changes the selection
      or the sidebar. */
  lemma SearchKeepsSelection(s: ViewState, query: string)
    ensures var t := QueryChanged(s, query);
      && t.selectedRoom == s.selectedRoom && t.isSidebarOpen == s.isSidebarOpen
      && t.searchQuery == query
  {
  }

  /** The page component: the room list it reads and its three state fields. */
  class GuestChatView {
    const rooms: seq<ChatRoom>
    var selectedRoom: Option<ChatRoom>
    var searchQuery: string
    var isSidebarOpen: bool

    function State(): ViewState
      reads this
    {
      ViewState(selectedRoom, searchQuery, isSidebarOpen)
    }

    /** First render. */
    constructor (rooms: seq<ChatRoom>)
      ensures this.rooms == rooms && State() == InitialState
    {
      this.rooms := rooms;
      selectedRoom := None;
      searchQuery := "";
      isSidebarOpen := true;
    }

    /** The rooms listed in the sidebar for the current search. */
    function FilteredRooms(): (r: seq<ChatRoom>)
      reads this
      ensures forall room :: room in r <==> room in rooms && Matches(room, searchQuery)
      ensures forall room :: multiset(r)[room] == if Matches(room, searchQuery) then multiset(rooms)[room] else 0
      ensures IsSubsequence(r, rooms)
    {
      FilterKeepsOrder(rooms, searchQuery);
      FilterRooms(rooms, searchQuery)
    }

    /** The effect run once after the first render. */
    method SelectFirstRoomOnMount()
      modifies this`selectedRoom
      ensures State() == Mounted(rooms, old(State()))
    {
      if |rooms| > 0 && selectedRoom.None? {
        selectedRoom := Some(rooms[0]);
      }
    }

    method HandleRoomSelect(room: ChatRoom, windowWidth: int)
      modifies this`selectedRoom, this`isSidebarOpen
      ensures State() == RoomSelected(old(State()), room, windowWidth)
    {
      selectedRoom := Some(room);
      if windowWidth < 768 {
        isSidebarOpen := false;
      }
    }

    method ToggleSidebar()
      modifies this`isSidebarOpen
      ensures State() == SidebarToggled(old(State()))
    {
      isSidebarOpen := !isSidebarOpen;
    }

    /** The search input's onChange. */
    method SetSearchQuery(query: string)
      modifies this`searchQuery
      ensures State() == QueryChanged(old(State()), query)
    {
      searchQuery := query;
    }
  }
}
