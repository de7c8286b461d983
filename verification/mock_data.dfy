/** The mock conversation generator and the fixed catalog of ten country rooms
    (src/data/mockData.ts). The random topic draw becomes the parameter
    `topicIndex` and the clock the parameter `now`, in minutes. */
module MockData {
  import opened Types
  import opened Text

  const BotNames: seq<string> :=
    ["Alex", "Taylor", "Jordan", "Sam", "Riley", "Morgan", "Casey", "Jamie"]

  datatype Topic = Topic(topic: string, messages: seq<string>)

  /** The title of template t: the four topics in the order they are listed. */
  function TopicTitle(t: nat): string
    requires t < 4
  {
    match t
    case 0 => "University Life"
    case 1 => "Student Exchange"
    case 2 => "Accommodation"
    case 3 => "Local Events"
  }

  /** Line i of template t. The first line of "Local Events" (t = 3, i = 0)
      interpolates the room name and is given by FestivalLine instead. */
  function TemplateLine(t: nat, i: nat): string
    requires t < 4 && i < 6 && !(t == 3 && i == 0)
  {
    match (t, i)
    case (0, 0) => "Has anyone started studying for the finals yet?"
    case (0, 1) => "I've been preparing for weeks. The economics exam looks tough!"
    case (0, 2) => "Does anyone have Professor Wilson's lecture notes from last week?"
    case (0, 3) => "I can share mine. I'll send them in the group later."
    case (0, 4) => "The campus library is so crowded these days. Any other good study spots?"
    case (0, 5) => "I usually go to the coffee shop on Main Street. It's quiet and has good wifi."
    case (1, 0) => "I'm thinking about applying for the exchange program next semester. Anyone done it before?"
    case (1, 1) => "I did the exchange to Berlin last year. It was an amazing experience!"
    case (1, 2) => "How difficult was the application process?"
    case (1, 3) => "Not too bad, but start early. The recommendation letters take time."
    case (1, 4) => "Did you have any issues with credit transfers when you came back?"
    case (1, 5) => "A few, but the international office was really helpful sorting it out."
    case (2, 0) => "I'm looking for a new roommate for next semester. Anyone interested?"
    case (2, 1) => "What area is the apartment in?"
    case (2, 2) => "It's right near the science building, about a 5-minute walk to campus."
    case (2, 3) => "That sounds perfect! How much is the rent?"
    case (2, 4) => "It's $450 per month, utilities included. The place is furnished too."
    case (2, 5) => "I might be interested. Can I come see it sometime this week?"
    case (3, 1) => "I'm planning to go on Saturday. I heard the food stalls are amazing!"
    case (3, 2) => "What time does it start? I have a morning class."
    case (3, 3) => "I think it's from noon until late evening."
    case (3, 4) => "Is there an entry fee?"
    case (3, 5) => "It's free for students if you show your university ID."
  }

  function FestivalLine(roomName: string): string
  {
    "Anyone going to the " + roomName + " cultural festival this weekend?"
  }

  /** The six lines of template t as built for one room. */
  function TopicLines(t: nat, roomName: string): (lines: seq<string>)
    requires t < 4
    ensures |lines| == 6
  {
    seq(6, i requires 0 <= i < 6 =>
      if t == 3 && i == 0 then FestivalLine(roomName) else TemplateLine(t, i))
  }

  /** The `topics` table as built for one room: four templates of six lines. */
  function Topics(roomName: string): (ts: seq<Topic>)
    ensures |ts| == 4
    ensures forall t :: 0 <= t < |ts| ==> ts[t] == Topic(TopicTitle(t), TopicLines(t, roomName))
  {
    seq(4, t requires 0 <= t < 4 => Topic(TopicTitle(t), TopicLines(t, roomName)))
  }

  /** The eight reference instants in the order they are listed: 5, 8, 12, 18,
      24 and 30 minutes, one hour and two hours before now. */
  function TimeIntervals(now: int): (instants: seq<int>)
    ensures |instants| == 8
    ensures forall k :: 0 <= k < |instants| ==> now - 120 <= instants[k] < now
    ensures forall i, j :: 0 <= i < j < |instants| ==> instants[i] > instants[j]
  {
    [now - 5, now - 8, now - 12, now - 18, now - 24, now - 30, now - 60, now - 120]
  }

  predicate Ascending(s: seq<int>)
  {
    forall i, j :: 0 <= i < j < |s| ==> s[i] <= s[j]
  }

  predicate StrictlyAscending(s: seq<int>)
  {
    forall i, j :: 0 <= i < j < |s| ==> s[i] < s[j]
  }

  function Insert(x: int, s: seq<int>): (r: seq<int>)
    requires Ascending(s)
    ensures Ascending(r)
    ensures multiset(r) == multiset(s) + multiset{x}
    ensures |r| == |s| + 1
    ensures forall k :: 0 <= k < |r| ==> r[k] == x || r[k] in s
  {
    if s == [] then [x]
    else if x <= s[0] then [x] + s
    else
      assert s == [s[0]] + s[1..];
      [s[0]] + Insert(x, s[1..])
  }

  /** The result of `Array.prototype.sort` with the comparator
      `(a, b) => a.getTime() - b.getTime()`: the ascending permutation. */
  function SortAscending(s: seq<int>): (r: seq<int>)
    ensures Ascending(r)
    ensures multiset(r) == multiset(s)
    ensures |r| == |s|
  {
    if s == [] then []
    else
      assert s == [s[0]] + s[1..];
      Insert(s[0], SortAscending(s[1..]))
  }

  /** Number of occurrences of x in s. */
  function Occurrences(s: seq<int>, x: int): nat
  {
    if s == [] then 0 else (if s[0] == x then 1 else 0) + Occurrences(s[1..], x)
  }

  /** a is a rearrangement of b. */
  ghost predicate SameElements(a: seq<int>, b: seq<int>)
  {
    forall x :: Occurrences(a, x) == Occurrences(b, x)
  }

  lemma {:induction false} OccurrencesCount(s: seq<int>, x: int)
    ensures Occurrences(s, x) == multiset(s)[x]
  {
    if s != [] {
      assert s == [s[0]] + s[1..];
      OccurrencesCount(s[1..], x);
    }
  }

  lemma SameElementsIsPermutation(a: seq<int>, b: seq<int>)
    ensures SameElements(a, b) <==> multiset(a) == multiset(b)
  {
    forall x
      ensures Occurrences(a, x) == multiset(a)[x] && Occurrences(b, x) == multiset(b)[x]
    {
      OccurrencesCount(a, x);
      OccurrencesCount(b, x);
    }
    if SameElements(a, b) {
      assert forall x :: multiset(a)[x] == multiset(b)[x];
    }
  }

  /** The head of an ascending sequence is at most every element it holds. */
  lemma AscendingHeadIsLeast(a: seq<int>, b: seq<int>)
    requires Ascending(b) && a != [] && multiset(a) == multiset(b)
    ensures b != [] && b[0] <= a[0]
  {
    assert a[0] in multiset(b);
    var j :| 0 <= j < |b| && b[j] == a[0];
  }

  /** An ascending sequence is determined by its multiset of elements, so a
      sort has exactly one possible result. */
  lemma {:induction false} AscendingUnique(a: seq<int>, b: seq<int>)
    requires Ascending(a) && Ascending(b)
    requires multiset(a) == multiset(b)
    ensures a == b
  {
    if a == [] {
      assert |b| == |multiset(b)| == 0;
    } else {
      AscendingHeadIsLeast(a, b);
      AscendingHeadIsLeast(b, a);
      assert a == [a[0]] + a[1..] && b == [b[0]] + b[1..];
      assert multiset(a) == multiset{a[0]} + multiset(a[1..]);
      assert multiset(b) == multiset{a[0]} + multiset(b[1..]);
      assert multiset(a[1..]) == multiset(a) - multiset{a[0]} == multiset(b[1..]);
      AscendingUnique(a[1..], b[1..]);
    }
  }

  function Reverse(s: seq<int>): (r: seq<int>)
    ensures |r| == |s|
  {
    if s == [] then [] else Reverse(s[1..]) + [s[0]]
  }

  lemma {:induction false} ReversePermutes(s: seq<int>)
    ensures multiset(Reverse(s)) == multiset(s)
  {
    if s != [] {
      ReversePermutes(s[1..]);
      assert s == [s[0]] + s[1..];
    }
  }

  /** The eight instants in chronological order, from two hours ago to five
      minutes ago. */
  function Timeline(now: int): (instants: seq<int>)
    ensures |instants| == 8 && forall k :: 0 <= k < |instants| ==> instants[k] < now
  {
    [now - 120, now - 60, now - 30, now - 24, now - 18, now - 12, now - 8, now - 5]
  }

  /** The instants are listed latest first: the timeline is their reversal. */
  lemma TimelineReversesIntervals(now: int)
    ensures Reverse(TimeIntervals(now)) == Timeline(now)
  {
    var listed, expected := TimeIntervals(now), Timeline(now);
    assert Reverse(listed[7..]) == [now - 120];
    assert Reverse(listed[6..]) == expected[..2];
    assert Reverse(listed[5..]) == expected[..3];
    assert Reverse(listed[4..]) == expected[..4];
    assert Reverse(listed[3..]) == expected[..5];
    assert Reverse(listed[2..]) == expected[..6];
    assert Reverse(listed[1..]) == expected[..7];
  }

  lemma TimelinePermutesIntervals(now: int)
    ensures multiset(Timeline(now)) == multiset(TimeIntervals(now))
  {
    TimelineReversesIntervals(now);
    ReversePermutes(TimeIntervals(now));
  }

  /** Any two ascending rearrangements of the same elements coincide. */
  lemma SameElementsUnique(sorted: seq<int>, instants: seq<int>, expected: seq<int>)
    requires Ascending(sorted) && SameElements(sorted, instants)
    requires Ascending(expected) && multiset(expected) == multiset(instants)
    ensures sorted == expected
  {
    SameElementsIsPermutation(sorted, instants);
    AscendingUnique(sorted, expected);
  }

  lemma TimelineAscending(now: int)
    ensures StrictlyAscending(Timeline(now)) && Ascending(Timeline(now))
  {
  }

  /** The timeline is the only ascending arrangement of the listed instants,
      so it is what the sort returns. */
  lemma SortedTimeIntervals(now: int, sorted: seq<int>)
    requires Ascending(sorted) && SameElements(sorted, TimeIntervals(now))
    ensures sorted == Timeline(now)
  {
    TimelinePermutesIntervals(now);
    TimelineAscending(now);
    SameElementsUnique(sorted, TimeIntervals(now), Timeline(now));
  }

  /** `timeIntervals.sort((a, b) => a.getTime() - b.getTime())`: an ascending
      rearrangement of the instants. */
  method SortByTime(instants: seq<int>) returns (sorted: seq<int>)
    ensures Ascending(sorted) && SameElements(sorted, instants)
  {
    sorted := SortAscending(instants);
    SameElementsIsPermutation(sorted, instants);
  }

  /** Message ids `msg-<room>-<i>`. */
  function MessageId(roomName: string, i: nat): string
  {
    "msg-" + roomName + "-" + NatToString(i)
  }

  /** The bot in pool slot `slot`: id `bot-<slot>`, the slot's name, no avatar. */
  function BotUser(slot: nat): User
    requires slot < |BotNames|
  {
    User("bot-" + NatToString(slot), BotNames[slot], "")
  }

  /** The conversation generated for `roomName` when the random draw picks
      template `topicIndex` and the clock reads `now`: message i carries line i
      of the template, is sent by bot i and takes the i-th instant of the
      timeline. (The generator indexes the bot pool and the instants modulo their
      sizes; with six lines against eight entries that never wraps, which
      GenerateConversation proves.) */
  function Conversation(roomName: string, topicIndex: nat, now: int): (c: seq<Message>)
    requires topicIndex < 4
    ensures |c| == 6
    ensures forall i :: 0 <= i < |c| ==> c[i].timestamp < now
  {
    var lines := Topics(roomName)[topicIndex].messages;
    seq(|lines|, i requires 0 <= i < |lines| =>
      Message(MessageId(roomName, i), lines[i], BotUser(i), Timeline(now)[i]))
  }

  lemma SmallRemainder(i: nat, n: nat)
    requires i < n
    ensures i % n == i
  {
  }

  /** Message i of the conversation, written as the generator's loop builds
      it: the bot slot and the instant are taken modulo the pool sizes. */
  lemma ConversationMessage(roomName: string, topicIndex: nat, now: int, i: nat)
    requires topicIndex < 4 && i < 6
    ensures Conversation(roomName, topicIndex, now)[i] ==
      Message("msg-" + roomName + "-" + NatToString(i),
        Topics(roomName)[topicIndex].messages[i],
        User("bot-" + NatToString(i % |BotNames|), BotNames[i % |BotNames|], ""),
        Timeline(now)[i % 8])
  {
    SmallRemainder(i, |BotNames|);
    SmallRemainder(i, 8);
  }

  /** generateConversation: pick the template, sort the instants, then push one
      message per template line. */
  method GenerateConversation(roomName: string, topicIndex: nat, now: int)
    returns (conversation: seq<Message>)
    requires topicIndex < 4
    ensures conversation == Conversation(roomName, topicIndex, now)
  {
    var botNames := BotNames;
    var selectedTopic := Topics(roomName)[topicIndex];
    var timeIntervals := SortByTime(TimeIntervals(now));
    SortedTimeIntervals(now, timeIntervals);
    ghost var spec := Conversation(roomName, topicIndex, now);
    conversation := [];
    var i := 0;
    while i < |selectedTopic.messages|
      invariant i <= |selectedTopic.messages|
      invariant |conversation| == i
      invariant conversation == spec[..i]
    {
      ConversationMessage(roomName, topicIndex, now, i);
      var botName := botNames[i % |botNames|];
      var message := Message(
        "msg-" + roomName + "-" + NatToString(i),
        selectedTopic.messages[i],
        User("bot-" + NatToString(i % |botNames|), botName, ""),
        timeIntervals[i % |timeIntervals|]);
      assert message == spec[i];
      assert spec[..i + 1] == spec[..i] + [spec[i]];
      conversation := conversation + [message];
      i := i + 1;
    }
    assert spec[..i] == spec;
  }

  /** Every template yields six messages; message i carries line i of the
      template and is sent by bot i. */
  lemma ConversationFollowsTemplate(roomName: string, topicIndex: nat, now: int)
    requires topicIndex < 4
    ensures var c := Conversation(roomName, topicIndex, now);
      && |c| == 6
      && forall i :: 0 <= i < 6 ==>
           && c[i].content == Topics(roomName)[topicIndex].messages[i]
           && c[i].sender == User("bot-" + NatToString(i), BotNames[i], "")
  {
  }

  /** The six senders of a conversation are pairwise distinct, by id and by name. */
  lemma ConversationSendersDistinct(roomName: string, topicIndex: nat, now: int)
    requires topicIndex < 4
    ensures var c := Conversation(roomName, topicIndex, now);
      forall i, j :: 0 <= i < j < |c| ==>
        c[i].sender.id != c[j].sender.id && c[i].sender.name != c[j].sender.name
  {
    var c := Conversation(roomName, topicIndex, now);
    forall i, j | 0 <= i < j < |c|
      ensures c[i].sender.id != c[j].sender.id && c[i].sender.name != c[j].sender.name
    {
      if c[i].sender.id == c[j].sender.id {
        CancelAround("bot-", NatToString(i), NatToString(j), "");
        NatToStringInjective(i, j);
      }
    }
  }

  /** Message ids are pairwise distinct within one conversation. */
  lemma ConversationIdsDistinct(roomName: string, topicIndex: nat, now: int)
    requires topicIndex < 4
    ensures var c := Conversation(roomName, topicIndex, now);
      forall i, j :: 0 <= i < j < |c| ==> c[i].id != c[j].id
  {
    var c := Conversation(roomName, topicIndex, now);
    forall i, j | 0 <= i < j < |c|
      ensures c[i].id != c[j].id
    {
      if c[i].id == c[j].id {
        CancelAround("msg-" + roomName + "-", NatToString(i), NatToString(j), "");
        NatToStringInjective(i, j);
      }
    }
  }

  /** Message i takes the i-th earliest instant, so the timestamps strictly
      increase from two hours ago to twelve minutes ago; the two most recent
      instants (8 and 5 minutes ago) are never used. */
  lemma ConversationTimeline(roomName: string, topicIndex: nat, now: int)
    requires topicIndex < 4
    ensures var c := Conversation(roomName, topicIndex, now);
      && |c| == 6
      && (forall i :: 0 <= i < |c| ==> c[i].timestamp == Timeline(now)[i])
      && (forall i, j :: 0 <= i < j < |c| ==> c[i].timestamp < c[j].timestamp)
      && c[0].timestamp == now - 120
      && c[5].timestamp == now - 12
      && (forall i :: 0 <= i < |c| ==> c[i].timestamp != now - 8 && c[i].timestamp != now - 5)
  {
    TimelineAscending(now);
  }

  /** The room name reaches the content only through the first line of the
      "Local Events" template, and there it is recoverable: two room names give
      the same first line exactly when they are equal. */
  lemma RoomNameOnlyInFestivalLine(name1: string, name2: string, topicIndex: nat, now: int)
    requires topicIndex < 4
    ensures var c1, c2 := Conversation(name1, topicIndex, now), Conversation(name2, topicIndex, now);
      && |c1| == |c2|
      && (forall i :: 0 <= i < |c1| && (topicIndex != 3 || i != 0) ==> c1[i].content == c2[i].content)
      && (topicIndex == 3 ==> (c1[0].content == c2[0].content <==> name1 == name2))
      && (forall i :: 0 <= i < |c1| ==> c1[i].sender == c2[i].sender && c1[i].timestamp == c2[i].timestamp)
  {
    if topicIndex == 3 && FestivalLine(name1) == FestivalLine(name2) {
      CancelAround("Anyone going to the ", name1, name2, " cultural festival this weekend?");
    }
  }

  /** One entry of mockChatRooms as written: the room's fields and the name
      the entry passes to generateConversation. */
  datatype RoomEntry = RoomEntry(id: string, name: string, icon: string, participantsCount: int, seed: string)

  const CatalogSize := 10

  /** Entry i of the catalog. The "usa" entry generates its conversation from
      "USA", not from its display name. */
  function CatalogEntry(i: nat): RoomEntry
    requires i < CatalogSize
  {
    match i
    case 0 => RoomEntry("england", "England", "https://flagcdn.com/w40/gb-eng.png", 126, "England")
    case 1 => RoomEntry("usa", "United States", "https://flagcdn.com/w40/us.png", 215, "USA")
    case 2 => RoomEntry("india", "India", "https://flagcdn.com/w40/in.png", 187, "India")
    case 3 => RoomEntry("canada", "Canada", "https://flagcdn.com/w40/ca.png", 94, "Canada")
    case 4 => RoomEntry("australia", "Australia", "https://flagcdn.com/w40/au.png", 73, "Australia")
    case 5 => RoomEntry("germany", "Germany", "https://flagcdn.com/w40/de.png", 109, "Germany")
    case 6 => RoomEntry("france", "France", "https://flagcdn.com/w40/fr.png", 88, "France")
    case 7 => RoomEntry("japan", "Japan", "https://flagcdn.com/w40/jp.png", 66, "Japan")
    case 8 => RoomEntry("brazil", "Brazil", "https://flagcdn.com/w40/br.png", 82, "Brazil")
    case 9 => RoomEntry("southafrica", "South Africa", "https://flagcdn.com/w40/za.png", 57, "South Africa")
  }

  /** One random draw per catalog entry: the template index Math.random picked
      and the clock reading when the entry was built. */
  datatype Draw = Draw(topicIndex: nat, now: int)

  predicate ValidDraws(draws: seq<Draw>)
  {
    |draws| == CatalogSize && forall i :: 0 <= i < |draws| ==> draws[i].topicIndex < 4
  }

  /** mockChatRooms: every entry with the conversation generated for it. */
  function MockChatRooms(draws: seq<Draw>): (rooms: seq<ChatRoom>)
    requires ValidDraws(draws)
    ensures |rooms| == CatalogSize
    ensures forall i :: 0 <= i < |rooms| ==> |rooms[i].messages| == 6 && rooms[i].participantsCount > 0
  {
    seq(CatalogSize, i requires 0 <= i < CatalogSize =>
      var e := CatalogEntry(i);
      ChatRoom(e.id, e.name, e.icon, e.participantsCount,
        Conversation(e.seed, draws[i].topicIndex, draws[i].now)))
  }

  /** The room ids in catalog order. */
  const RoomIds: seq<string> :=
    ["england", "usa", "india", "canada", "australia",
     "germany", "france", "japan", "brazil", "southafrica"]

  lemma RoomIdsDistinct()
    ensures forall i, j :: 0 <= i < j < |RoomIds| ==> RoomIds[i] != RoomIds[j]
  {
  }

  /** The catalog holds ten rooms with pairwise-distinct ids, in a fixed order. */
  lemma CatalogIds(draws: seq<Draw>)
    requires ValidDraws(draws)
    ensures var rooms := MockChatRooms(draws);
      && |rooms| == |RoomIds|
      && (forall i :: 0 <= i < |rooms| ==> rooms[i].id == RoomIds[i])
      && (forall i, j :: 0 <= i < j < |rooms| ==> rooms[i].id != rooms[j].id)
  {
    RoomIdsDistinct();
  }

  /** Every room carries the six-message conversation generated from the name
      written at its entry, which is its display name except for "usa". */
  lemma CatalogConversations(draws: seq<Draw>)
    requires ValidDraws(draws)
    ensures var rooms := MockChatRooms(draws);
      forall i :: 0 <= i < |rooms| ==>
        && rooms[i].messages == Conversation(CatalogEntry(i).seed, draws[i].topicIndex, draws[i].now)
        && |rooms[i].messages| == 6
        && (i != 1 <==> CatalogEntry(i).seed == rooms[i].name)
  {
    forall i | 0 <= i < CatalogSize {
      ConversationFollowsTemplate(CatalogEntry(i).seed, draws[i].topicIndex, draws[i].now);
    }
  }

  /** The room shown as "United States" has its conversation generated from
      "USA": its message ids are the ones built from "USA", never the ones its
      display name would give. */
  lemma UsaRoomSeed(draws: seq<Draw>)
    requires ValidDraws(draws)
    ensures var usa := MockChatRooms(draws)[1];
      && usa.id == "usa" && usa.name == "United States"
      && usa.messages == Conversation("USA", draws[1].topicIndex, draws[1].now)
      && forall k: nat :: MessageId("USA", k) != MessageId(usa.name, k)
  {
    var usa := MockChatRooms(draws)[1];
    forall k: nat
      ensures MessageId("USA", k) != MessageId(usa.name, k)
    {
      assert MessageId("USA", k)[5] == 'S' != MessageId(usa.name, k)[5];
    }
  }
}
