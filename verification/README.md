# Student-Connect: verified model of the chat data, guest chat page and payment form

This Dafny project models three pieces of the Student-Connect web front end.

1. **The mock data** (`src/data/mockData.ts`).
   - `generateConversation` builds a six-message bot conversation for a room from one of four topic templates.
   - It stamps the messages with a sorted list of recent instants.
   - The `mockChatRooms` catalog applies it to ten country rooms.
2. **The guest chat page** (`src/pages/GuestChatPage.tsx`).
   - The case-insensitive room search.
   - The default selection of the first room.
   - Room selection, which closes the sidebar on narrow windows.
   - The sidebar toggle.
   - The last-message preview and the highlight of the selected room.
3. **The payment form's input formatters** (`src/pages/SubscriptionPage.tsx`).
   - The card number grouped in blocks of four.
   - The MM/YY expiry mask.
   - The CVC digit filter.

The records of `src/types/index.ts` are the datatypes `User`, `Message` and `ChatRoom`; a timestamp is an integer number of minutes.

Files:
- `text.dfy` holds the string operations shared by the model. They are stated for ASCII:
  - the digit filter;
  - space removal;
  - `substring` with its clamping and swapping;
  - `toLowerCase`;
  - `includes`;
  - decimal rendering of a number.
- `types.dfy` holds the records.
- `mock_data.dfy` holds the generator and the catalog.
- `guest_chat.dfy` holds the page.
  - The page component is the class `GuestChatView`.
  - Its fields `selectedRoom`, `searchQuery` and `isSidebarOpen` are updated by the handlers.
  - Each handler is proved to move the page state `State()` by a transition function.
  - Lemmas state what each transition does.
- `subscription.dfy` holds the formatters.
  - `FormatCardNumber` keeps the source's stepping loop over blocks of four.
  - It is proved equal to the specification function `FormattedCard`, and the lemmas are stated about that function.

The random template choice and the clock become parameters:
- The generator takes `topicIndex` (0 to 3) and `now`.
- The catalog takes one `Draw` per room.

There are two places where the model says more than a literal reading suggests:
- **The bot pool and the instants are never wrapped.** The generator indexes both modulo their sizes (8 and 8). With six lines per template the modulo never wraps. `GenerateConversation` proves this.
- **The query "a" keeps every room.** One might expect it to miss "United States" and "India". Every catalog name contains an "a" or "A", so the filter keeps all ten. `GuestChat.CatalogQueryA` proves this.

## Model

| member | source | states |
|---|---|---|
| `MockData.TimeIntervals` | src/data/mockData.ts:62-70 | the eight instants as listed: all within the last two hours and strictly before now, latest first |
| `MockData.Conversation` | src/data/mockData.ts:74-86 | the closed form of a generated conversation: six messages, each stamped strictly before now |
| `MockData.MockChatRooms` | src/data/mockData.ts:92-163 | the catalog built from one draw per entry: ten rooms, each with six messages and a positive participant count |
| `MockData.SortAscending` | src/data/mockData.ts:62-71 | the comparator sort's result is ascending and a permutation of its input |
| `MockData.SortByTime` | src/data/mockData.ts:71 | sorting the instants gives an ascending rearrangement holding each instant as often as the input does |
| `MockData.AscendingUnique` | src/data/mockData.ts:71 | two ascending sequences with the same elements are equal, so the sort has exactly one possible result |
| `MockData.SortedTimeIntervals` | src/data/mockData.ts:62-71 | the only ascending arrangement of the eight listed instants is now-120, now-60, now-30, now-24, now-18, now-12, now-8, now-5 |
| `MockData.ConversationMessage` | src/data/mockData.ts:75-84 | message i as the loop builds it, with the bot slot and the instant taken modulo eight, is message i of the closed form |
| `MockData.GenerateConversation` | src/data/mockData.ts:5-89 | the push loop yields exactly the conversation: message i has id msg-room-i, line i of the drawn template, bot i as sender and sorted instant i; the modulo indexing never wraps |
| `MockData.ConversationFollowsTemplate` | src/data/mockData.ts:74-83 | six messages for every template; message i carries template line i and is sent by bot-i with name botNames[i] and an empty avatar |
| `MockData.ConversationSendersDistinct` | src/data/mockData.ts:75-83 | the six senders differ pairwise in id and in name |
| `MockData.ConversationIdsDistinct` | src/data/mockData.ts:77 | the six message ids differ pairwise |
| `MockData.ConversationTimeline` | src/data/mockData.ts:62-84 | timestamps strictly increase from now-120 to now-12; now-8 and now-5 are never used |
| `MockData.RoomNameOnlyInFestivalLine` | src/data/mockData.ts:44-47 | two room names give identical contents, senders and timestamps except the first "Local Events" line, which is equal exactly when the names are |
| `MockData.CatalogIds` | src/data/mockData.ts:92-163 | ten rooms with ids england, usa, india, canada, australia, germany, france, japan, brazil, southafrica in this order, pairwise distinct |
| `MockData.CatalogConversations` | src/data/mockData.ts:92-163 | each room holds the six-message conversation generated from the name written at its entry, which is its display name for every room but the second |
| `MockData.UsaRoomSeed` | src/data/mockData.ts:100-106 | the room named "United States" is generated from "USA": its message ids are the ones built from "USA", never the ones its display name would give |
| `GuestChat.Matches` | src/pages/GuestChatPage.tsx:18 | the filter test; the empty query matches every room, and a query longer than the room's name matches none |
| `GuestChat.FilterRooms` | src/pages/GuestChatPage.tsx:17-19 | a room is listed exactly when it is in the catalog and its lower-cased name contains the lower-cased query; each matching room is listed as often as it occurs in the catalog and a non-matching one never; never more rooms than the catalog |
| `GuestChat.FilterKeepsOrder` | src/pages/GuestChatPage.tsx:17-19 | the listed rooms are a subsequence of the catalog |
| `GuestChat.EmptyQueryKeepsAll` | src/pages/GuestChatPage.tsx:17-19 | the empty query lists the whole catalog unchanged |
| `GuestChat.FilterIgnoresCase` | src/pages/GuestChatPage.tsx:18 | a query lists the same rooms as its lower-cased and its upper-cased forms |
| `GuestChat.ExtendingQueryNarrows` | src/pages/GuestChatPage.tsx:18 | extending a query lists a subsequence, hence a subset, of the rooms listed before |
| `GuestChat.CatalogQueryA` | src/pages/GuestChatPage.tsx:17-19 | on the catalog the query "a" lists all ten rooms |
| `GuestChat.Preview` | src/pages/GuestChatPage.tsx:107-109 | the sidebar line: never empty; for a room with messages, as long as the last sender's name, ": " and the last content together |
| `GuestChat.PreviewPlaceholderIffEmpty` | src/pages/GuestChatPage.tsx:107-109 | the preview is "No messages yet" exactly for a room without messages; otherwise it is the last sender's name, then ": ", then the last content |
| `GuestChat.CatalogPreview` | src/pages/GuestChatPage.tsx:107-109 | every catalog room previews as "Morgan: " followed by the sixth line of its template |
| `GuestChat.IsHighlighted` | src/pages/GuestChatPage.tsx:95 | the selected room is always highlighted, and with nothing selected no room is |
| `GuestChat.CatalogHighlightsOne` | src/pages/GuestChatPage.tsx:95 | selecting catalog room k highlights room k and no other |
| `GuestChat.MountSelectsFirstRoom` | src/pages/GuestChatPage.tsx:10-26 | after the first render and the mount effect, England is selected, the sidebar is open, the whole catalog is listed, and running the effect again changes nothing |
| `GuestChat.MountKeepsSelection` | src/pages/GuestChatPage.tsx:21-26 | the effect only fills an empty selection from a non-empty catalog; an existing selection or an empty catalog leaves the state unchanged |
| `GuestChat.SelectRoomEffect` | src/pages/GuestChatPage.tsx:41-46 | selecting sets the selection to the room, keeps the query, and leaves the sidebar open exactly when it was open and the width is at least 768 |
| `GuestChat.ToggleTwiceRestores` | src/pages/GuestChatPage.tsx:48-50 | a toggle flips only the sidebar flag, and two toggles restore the state |
| `GuestChat.SearchKeepsSelection` | src/pages/GuestChatPage.tsx:78 | typing sets only the query; selection and sidebar stay |
| `GuestChat.GuestChatView.constructor` | src/pages/GuestChatPage.tsx:10-13 | first render: nothing selected, empty query, sidebar open |
| `GuestChat.GuestChatView.FilteredRooms` | src/pages/GuestChatPage.tsx:17-19 | the listed rooms are the catalog rooms matching the current query, each as often as in the catalog, in catalog order |
| `GuestChat.GuestChatView.SelectFirstRoomOnMount` | src/pages/GuestChatPage.tsx:21-26 | changes only the selection, as the mount transition prescribes |
| `GuestChat.GuestChatView.HandleRoomSelect` | src/pages/GuestChatPage.tsx:41-46 | changes selection and sidebar only, as the selection transition prescribes |
| `GuestChat.GuestChatView.ToggleSidebar` | src/pages/GuestChatPage.tsx:48-50 | changes only the sidebar flag, negating it |
| `GuestChat.GuestChatView.SetSearchQuery` | src/pages/GuestChatPage.tsx:78 | changes only the query |
| `Subscription.FormattedCard` | src/pages/SubscriptionPage.tsx:26-41 | what formatCardNumber returns; with four digits or more it has 4 to 19 characters |
| `Subscription.FormatCardNumber` | src/pages/SubscriptionPage.tsx:26-41 | the stepping loop over blocks of four returns exactly the formatted card number |
| `Subscription.FormattedCardShortInput` | src/pages/SubscriptionPage.tsx:27-40 | with fewer than four digits the input is returned unchanged, non-digits included |
| `Subscription.FormattedCardGroups` | src/pages/SubscriptionPage.tsx:27-37 | with four digits or more, removing the spaces (or all non-digits) gives the first min(n, 16) digits; a space stands exactly at every fifth position, there is no leading or trailing space, and the length is at most 19 (the field's maxLength) |
| `Subscription.FormattedCardIdempotent` | src/pages/SubscriptionPage.tsx:26-41 | formatting a formatted card number changes nothing |
| `Subscription.FormatExpiry` | src/pages/SubscriptionPage.tsx:43-51 | the expiry mask; never longer than five characters |
| `Subscription.ExpiryShape` | src/pages/SubscriptionPage.tsx:43-51 | with two digits or more: first two digits, "/", next at most two digits (3 to 5 characters, later digits dropped); otherwise the digits alone (at most one) |
| `Subscription.ExpiryIdempotent` | src/pages/SubscriptionPage.tsx:43-51 | formatting a formatted expiry changes nothing |
| `Subscription.ExpiryKeepsTypedSlash` | src/pages/SubscriptionPage.tsx:46-47 | "12/" is shown as "12/", and "12" (the slash erased) is shown as "12/" again |
| `Subscription.FilterCvc` | src/pages/SubscriptionPage.tsx:156 | the CVC handler; only digits, never longer than the input |
| `Subscription.CvcFilter` | src/pages/SubscriptionPage.tsx:156 | only digits remain, in their original order and with their counts, and filtering twice is filtering once |
| `Text.DigitsKeepsEveryDigit` | src/pages/SubscriptionPage.tsx:27 | the digit filter keeps every digit as often as it occurs and nothing else |
| `Text.DigitsFixedPoint` | src/pages/SubscriptionPage.tsx:44 | the digit filter leaves a string unchanged exactly when it holds only digits |
| `Text.NatToStringInjective` | src/data/mockData.ts:77 | different indices render as different decimal strings in the template literals |

## Left out

- `Math.random` (src/data/mockData.ts:58) and `new Date()` (line 61) are parameters: the template index and the current time in minutes.
- date-fns `subMinutes`/`subHours` are integer subtraction. `formatDistanceToNow` and `subDays` are imported but unused.
- `Array.prototype.sort` reorders the freshly built array in place. Nothing else refers to that array, so the model returns the sorted sequence instead of mutating one. The sort itself is given by its result, an insertion sort, not by the engine's algorithm.
- Regular expressions are modelled by their net effect on ASCII text:
  - deleting `/\s+/` and then `/[^0-9]/` keeps the digits 0-9;
  - `/\d{4,16}/` on a digit string gives its first sixteen digits when it has at least four.
- `toLowerCase` is modelled for ASCII letters only; Unicode case mapping is not modelled.
- The `maxLength` limits the browser enforces on the fields (19, 5 and 3) are not modelled.
  - The expiry mask is proved to stay within 5 characters by itself.
  - The card formatter is proved to stay within 19 characters only when the input holds four digits or more. With fewer it returns the input unchanged, which only the field's `maxLength={19}` (src/pages/SubscriptionPage.tsx:129) bounds.
- React rendering is not modelled:
  - scrolling to the newest message;
  - `toLocaleTimeString`;
  - navigation to other pages;
  - the disabled message box and its unused `message` state;
  - the login and payment timers.
- The other pages and components are presentation only and are not part of this model.
