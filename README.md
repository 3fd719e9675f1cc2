# Campus portal core, modelled in Dafny

This project models the logic behind four pages of a university campus portal. It also proves properties of that logic.

- **Content classifier** (`client/src/utils/hateDetection.ts`). A fixed list of fourteen sensitive words is matched as plain substrings of the lower-cased text. A confidence score comes from the number of matches and the number of space-separated pieces. The classifier returns a flag, the score and a reason string.
- **Campus chatbot** (`client/src/pages/Chatbot.tsx`). `getResponse` scans an ordered table of fifteen (keyword, reply) pairs and answers with the reply of the first keyword found in the lower-cased query. Otherwise it gives a fixed fallback. `handleSendMessage` appends the user's message and the bot's reply to the conversation, and confirms a reminder when the input mentions "reminder".
- **Community feed** (`client/src/pages/Community.tsx`):
  - like/unlike toggling;
  - adding comments;
  - prepending new posts;
  - the category tab filter;
  - the two submission gates that run the classifier before a comment or a post is accepted.
- **Food ordering cart** (`yen-dine-hub-connect-main/src/pages/Food.tsx`):
  - add and remove;
  - the total price;
  - the empty-cart checkout guard;
  - the day-name formatting.

The Dafny files are:

- `wrappers.dfy`: `Option`.
- `seqs.dfy`: counterparts of `Array.prototype.filter` and of a selective `map`, plus occurrence counting.
- `text.dfy`: `toLowerCase`, `includes`, `split(' ')`, `join` and `trim`.
- `hate_detection.dfy`, `chatbot.dfy`, `community.dfy`, `food.dfy`: one per page or module.

The React handlers build a new array or object and pass it to `setPosts` or `setCart`, so the feed and the cart are modelled as functions from the old list to the new one. The chatbot's state is modelled as a class whose methods update `messages`, `input` and `isTyping`. The chatbot's delayed reply is delivered at once.

## Model

| member | source | states |
|---|---|---|
| HateDetection.Confidence | client/src/utils/hateDetection.ts:48-50 | the score `min(0.3 + density*2 + matches*0.15, 0.95)` lies in [0, 0.95], and is at least 0.45 when there is at least one match |
| HateDetection.Classify | client/src/utils/hateDetection.ts:37-60 | for any lexicon: the empty text is not flagged, with confidence 0 and no reason; a text is flagged exactly when it is non-empty and some lexicon word occurs in its lower-cased form; a reason is present exactly when flagged; a flagged result has confidence in [0.45, 0.95] and the reason "Detected sensitive language: " followed by the found words joined with ", " |
| HateDetection.DetectHateSpeech | client/src/utils/hateDetection.ts:37-60 | the same over the fourteen `sensitiveWords`: unflagged results carry confidence 0 and no reason, flagged ones the prefixed list of found words |
| HateDetection.Matches | client/src/utils/hateDetection.ts:43 | for any lexicon, `filter(word => lowerText.includes(word))` keeps only lexicon words that occur in the text and keeps every lexicon word that does; `FoundWordsExactly` states the two directions for `sensitiveWords` |
| HateDetection.FoundWords | client/src/utils/hateDetection.ts:43 | `foundWords` is the filtered `sensitiveWords`; its partners are `FoundWordsExactly`, `FoundWordsInLexiconOrder` and `FoundWordsDistinct` |
| HateDetection.MatchesInEmpty | client/src/utils/hateDetection.ts:43 | a lexicon without the empty word has no match in the empty text |
| HateDetection.NothingFoundInEmpty | client/src/utils/hateDetection.ts:8-24 | none of the fourteen words is empty, so nothing is found in the empty text; this is what lets a blank title pass the post gate |
| HateDetection.FoundWordsExactly | client/src/utils/hateDetection.ts:43 | a word is found exactly when it is in the lexicon and occurs in the lower-cased text |
| HateDetection.FoundWordsInLexiconOrder | client/src/utils/hateDetection.ts:43 | splitting the lexicon at any point splits the found words at the same point, so they keep lexicon order |
| HateDetection.FoundWordsDistinct | client/src/utils/hateDetection.ts:8-24 | the lexicon is free of repeats, so no word is found twice |
| HateDetection.FilterKeepsNoDuplicates | client/src/utils/hateDetection.ts:43 | filtering a list of distinct words yields distinct words |
| HateDetection.ThresholdNeverDecides | client/src/utils/hateDetection.ts:46-56 | the `confidence > 0.3` test never decides: a text is flagged exactly when some lexicon word occurs in its lower-cased form |
| HateDetection.DensityWellDefined | client/src/utils/hateDetection.ts:48-49 | the piece count is the number of spaces plus one, so the density is a positive number whenever there is a match |
| HateDetection.CaseInsensitive | client/src/utils/hateDetection.ts:42 | a text and its lower-cased form get the same result |
| Text.Lower | client/src/utils/hateDetection.ts:42 | lower-casing keeps the length and maps every character through the ASCII lower-case map |
| Text.LowerIdempotent | client/src/pages/Chatbot.tsx:39 | lower-casing twice is lower-casing once |
| Text.SplitCount | client/src/utils/hateDetection.ts:48 | `split(' ')` yields exactly one more piece than there are spaces |
| Text.SplitJoin | client/src/utils/hateDetection.ts:48 | joining the pieces of `split(' ')` with a space gives back the string |
| Text.Contains | client/src/utils/hateDetection.ts:43 | `includes`: a string occurs only in a string at least as long, and the empty string occurs everywhere; `ContainsAt` ties it to occurrence at a position |
| Text.ContainsAt | client/src/utils/hateDetection.ts:43 | the recursive search holds exactly when the pattern occurs at some position of the string |
| Text.SplitOnSpace | client/src/utils/hateDetection.ts:48 | `split(' ')` yields at least one piece and no piece holds a space; `SplitCount` and `SplitJoin` are its partners |
| Text.Join | client/src/utils/hateDetection.ts:55 | `join` of no parts is empty and of one part is that part; `SplitJoin` shows it inverts `split(' ')` |
| Text.Trim | client/src/pages/Community.tsx:114 | `trim()` never lengthens the string and leaves no white space at either end of what remains; `TrimEmptyIffBlank` is its partner |
| Text.TrimEmptyIffBlank | client/src/pages/Community.tsx:114 | `trim()` leaves nothing exactly when every character is white space, which is the blank test used by the gates and by the chatbot |
| Chatbot.Route | client/src/pages/Chatbot.tsx:42-49 | the reply is that of the first entry, in table order, whose keyword occurs in the lower-cased query; with no such entry it is the fallback; it is always the fallback or one of the table's replies |
| Chatbot.GetResponse | client/src/pages/Chatbot.tsx:37-50 | `getResponse` routes the lower-cased query through the keyword table and always answers with the fallback or one of the table's replies; `Route`, `GetResponseCaseInsensitive` and `GetResponseNonEmpty` state the rest |
| Chatbot.LaterEntriesShadowed | client/src/pages/Chatbot.tsx:42-46 | once an entry's keyword occurs, dropping every later entry does not change the reply |
| Chatbot.HelloShadowsLibrary | client/src/pages/Chatbot.tsx:13-17 | a query containing both "hello" and "library" gets the greeting and not the library reply, wherever the two occur |
| Chatbot.GetResponseCaseInsensitive | client/src/pages/Chatbot.tsx:39 | `getResponse(q)` equals `getResponse(q.toLowerCase())` |
| Chatbot.RepliesNonEmpty | client/src/pages/Chatbot.tsx:12-28 | every reply of the table and the fallback are non-empty |
| Chatbot.GetResponseNonEmpty | client/src/pages/Chatbot.tsx:37-50 | the bot always answers with a non-empty string |
| Chatbot.Keywords | client/src/pages/Chatbot.tsx:12-28 | the table has fifteen entries, whose keywords come in the source's order |
| Chatbot.NoEarlierKeyword | client/src/pages/Chatbot.tsx:13-26 | a query lacking the letters h, w, l and s, and lacking one of c and f, matches none of the fourteen keywords before "reminder" |
| Chatbot.QuickReminderLacksTrigger | client/src/pages/Chatbot.tsx:104 | the lower-cased "Set Reminder" prompt does not contain "reminder" |
| Chatbot.QuickReminderPromptFallsBack | client/src/pages/Chatbot.tsx:112-114 | the prompt that the "Set Reminder" quick action puts in the input box gets the fallback reply, and sending it confirms no reminder |
| Chatbot.ReminderPromptSetsReminder | client/src/pages/Chatbot.tsx:112-114 | the corrected prompt gets the reminder reply, and sending it confirms the reminder |
| Chatbot.ChatSession.constructor | client/src/pages/Chatbot.tsx:53-63 | the conversation starts with the welcome message from the bot, numbered 1, with an empty input and no typing indicator |
| Chatbot.ChatSession.SetInput | client/src/pages/Chatbot.tsx:186 | typing replaces the input text and nothing else |
| Chatbot.ChatSession.SetReminder | client/src/pages/Chatbot.tsx:112-114 | the quick action replaces the input with the corrected reminder prompt and nothing else |
| Chatbot.ChatSession.SendMessage | client/src/pages/Chatbot.tsx:74-110 | blank input changes nothing; otherwise the user's message, numbered length+1, and the bot's reply to it, numbered length+2, are appended in that order, the input is cleared, the typing indicator is off, and a reminder is confirmed exactly when the lower-cased input contains "reminder"; messages stay numbered 1, 2, 3, … |
| Community.ToggleLike | client/src/pages/Community.tsx:401-421 | a liker unlikes: one like fewer and every occurrence of the user dropped; anyone else likes: one like more and the user appended; other likers' counts and all other fields are unchanged |
| Community.LikePost | client/src/pages/Community.tsx:399-425 | the list keeps its length and order; posts with the id are toggled for the current user, every other post is untouched |
| Community.ToggleKeepsBalance | client/src/pages/Community.tsx:403-420 | while the user is recorded at most once, the toggle keeps the like count minus the number of recorded likers fixed and keeps the like bookkeeping consistent |
| Community.LikeThenUnlike | client/src/pages/Community.tsx:403-420 | liking a post the user does not like, then unliking it, restores the post |
| Community.LikePostKeepsConsistency | client/src/pages/Community.tsx:399-425 | liking or unliking keeps every post's like bookkeeping consistent |
| Community.AddComment | client/src/pages/Community.tsx:428-443 | the list keeps its length and order; each post with the id gets exactly one comment, by the current user, stamped with the given time and "Just now", at the end of its comments, and no other field changes; other posts are untouched |
| Community.AddCommentKeepsConsistency | client/src/pages/Community.tsx:428-443 | adding a comment keeps the like bookkeeping consistent |
| Community.NewPost | client/src/pages/Community.tsx:379-396 | the new post comes first, with the submitted category, title, content and image, the current user's name and avatar, no likes, no comments and no likers; the old posts follow unchanged |
| Community.NewPostKeepsConsistency | client/src/pages/Community.tsx:379-396 | a new post keeps the like bookkeeping consistent |
| Community.FilteredPosts | client/src/pages/Community.tsx:376 | exactly the posts of the active tab's category are shown |
| Community.FilteredPostsAppend | client/src/pages/Community.tsx:376 | the tab filter keeps list order: the filter of a concatenation is the concatenation of the filters |
| Community.NewPostInTab | client/src/pages/Community.tsx:376-394 | a new post shows first in its own tab and leaves every other tab as it was |
| Community.CommentGate | client/src/pages/Community.tsx:113-128 | a blank comment is ignored; a non-blank flagged one is rejected with the classifier's reason; any other is accepted and contains no lexicon word |
| Community.PostGate | client/src/pages/Community.tsx:244-257 | a post with blank content is ignored; otherwise it is rejected when content or title is flagged, with the content's reason if the content is flagged and the title's otherwise; an accepted post has no lexicon word in content or title |
| Community.SubmitComment | client/src/pages/Community.tsx:113-128 | the list changes, by `handleAddComment`, exactly when the comment gate accepts |
| Community.SubmitPost | client/src/pages/Community.tsx:244-265 | the list changes, by `handleNewPost`, exactly when the post gate accepts |
| Community.SubmittedCommentsAreClean | client/src/pages/Community.tsx:113-128 | every comment that goes through the gate is free of lexicon words |
| Community.SubmittedPostIsClean | client/src/pages/Community.tsx:244-265 | a post that goes through the gate has content and title free of lexicon words |
| Food.AddToCart | yen-dine-hub-connect-main/src/pages/Food.tsx:82-96 | an item whose id is not in the cart is appended with quantity 1 after the unchanged entries; otherwise the cart keeps its length and order and only the entries with that id gain one |
| Food.RemoveFromCart | yen-dine-hub-connect-main/src/pages/Food.tsx:99-102 | no entry with the id remains, every other entry remains, and nothing new appears |
| Food.RemoveFromCartAppend | yen-dine-hub-connect-main/src/pages/Food.tsx:100 | removal keeps the order of what is left |
| Food.RemoveAbsent | yen-dine-hub-connect-main/src/pages/Food.tsx:100 | removing an id the cart does not hold changes nothing |
| Food.AddKeepsValid | yen-dine-hub-connect-main/src/pages/Food.tsx:82-96 | adding keeps ids unique and quantities at least 1 |
| Food.RemoveKeepsDistinctIds | yen-dine-hub-connect-main/src/pages/Food.tsx:100 | removal never makes two entries share an id |
| Food.RemoveKeepsValid | yen-dine-hub-connect-main/src/pages/Food.tsx:99-102 | removing keeps ids unique and quantities at least 1 |
| Food.SessionKeepsValid | yen-dine-hub-connect-main/src/pages/Food.tsx:71-102 | from the empty cart, any sequence of adds and removes keeps ids unique and quantities at least 1 |
| Food.Reduce | yen-dine-hub-connect-main/src/pages/Food.tsx:106 | the `reduce` callback adds price times quantity to the running total; its meaning is stated by `ReduceIsSum` |
| Food.TotalPrice | yen-dine-hub-connect-main/src/pages/Food.tsx:105-107 | `getTotalPrice()` equals the plain sum of price times quantity over the cart, by `ReduceIsSum` |
| Food.ReduceIsSum | yen-dine-hub-connect-main/src/pages/Food.tsx:106 | the `reduce` from any start value is that value plus the sum of price times quantity |
| Food.TotalIsSum | yen-dine-hub-connect-main/src/pages/Food.tsx:105-107 | the total is the sum of price times quantity, and the empty cart totals 0 |
| Food.SumIncrement | yen-dine-hub-connect-main/src/pages/Food.tsx:86-90 | adding one to the single entry holding an id raises the sum by that entry's price |
| Food.AddRaisesTotal | yen-dine-hub-connect-main/src/pages/Food.tsx:82-107 | adding an item raises the total by its price, provided an existing entry with its id has the same price |
| Food.HandleCheckout | yen-dine-hub-connect-main/src/pages/Food.tsx:110-128 | checkout is refused exactly when the cart is empty; otherwise a mobile device opens the UPI app and any other device shows the QR code |
| Food.FormatDay | yen-dine-hub-connect-main/src/pages/Food.tsx:77-79 | the length is kept, the first character is upper-cased and the rest is unchanged |
| Food.FormatDayRoundTrip | yen-dine-hub-connect-main/src/pages/Food.tsx:77-79 | lower-casing a formatted lower-case day name gives the name back |

## Left out

- Rendering: JSX, toasts, `alert`, scrolling, and the `disabled` state of the send and post buttons are not modelled. The chat and comment handlers re-check blank input themselves. The send button is also disabled while the bot is typing (client/src/pages/Chatbot.tsx:192), and `handleSendMessage` does not re-check that; in the model the typing indicator is always off between calls, so the difference cannot arise.
- Community.PostGate: the post handler checks only the content for blank input. A blank title is refused only by the disabled Post button (client/src/pages/Community.tsx:348), so the model accepts a post with a blank title and non-blank content. The form clearing after a successful submit is also not modelled: `setComment("")` (client/src/pages/Community.tsx:127) and `setTitle`, `setContent` and `removeImage` (client/src/pages/Community.tsx:267-269).
- Timers: the chatbot's two `setTimeout` delays are gone. The bot reply and the reminder confirmation are delivered within `SendMessage`, which turns the typing indicator on and off in the same call.
- Message timestamps: they are not modelled.
- Clock: `Date.now()`, used for post and comment ids, is the parameter `now`.
- Persistence: `localStorage` loading and saving of posts is not modelled.
- Image upload: the `FileReader` preview is not modelled; the submitted image is an input of `NewPost`.
- Device detection: `navigator.userAgent` is the parameter `isMobile` of `HandleCheckout`.
- Other pages: the admin panel, login, home page, site header and the Express server are not part of this model.
- Static data: the Community page's initial mock posts and the Food page's menu are not modelled; the operations are proved for every list.
- Text.Lower: case mapping covers ASCII letters only, while JavaScript's `toLowerCase` and `toUpperCase` are Unicode-aware. `Food.FormatDay` inherits this.
- Strings: they are sequences of Unicode scalar values, not UTF-16 code units.
- Numbers: JavaScript numbers are floating point. Confidence is an exact `real`, and prices, quantities, likes and ids are unbounded integers, so rounding and overflow are not modelled.
- Piece count: the classifier counts pieces of `split(' ')` exactly as the code does. Consecutive spaces therefore produce empty pieces, and tabs or newlines do not separate pieces. The source comment says the score considers word count; what the code counts is these pieces, and the model counts the same.
- Chatbot.GetResponse: only the router's general properties and the two quick-action prompts are proved. The other three quick-action prompts are not checked as concrete inputs.
- Chatbot.ChatSession.SendMessage: the bot's reply is computed from the input as it was when the message was sent. This matches the closure in the source, but fresh input typed during the delay is not modelled.

## Findings

| source | as written | input that shows it | evidently intended | confidence | as-written member | corrected member |
|---|---|---|---|---|---|---|
| client/src/pages/Chatbot.tsx:112-114 | the "Set Reminder" quick action fills the input with "Can you remind me about my next exam?". The bot answers reminders only when the lower-cased input contains "reminder" (:27, :104), and the prompt has only "remind". So the bot answers with the fallback and confirms no reminder | pressing "Set Reminder", then sending | the quick action's prompt reaches the reminder reply and the confirmation; for example "Add a reminder for my next exam" | medium, not executed | Chatbot.QuickReminderPromptFallsBack | Chatbot.ReminderPromptSetsReminder, used by Chatbot.ChatSession.SetReminder |
