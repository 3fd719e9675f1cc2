/** The campus chatbot of `client/src/pages/Chatbot.tsx`: a keyword router over an ordered
    table of canned replies, and the conversation state that `handleSendMessage` updates. */
module Chatbot {
  import opened Text

  /** `mockResponses`, as (keyword, reply) pairs in insertion order, which is the
      order `Object.entries` visits them. */
  const MockResponses: seq<(string, string)> := [
    ("hello", HelloReply),
    ("hi", HiReply),
    ("who are you", WhoAreYouReply),
    ("courses", CoursesReply),
    ("library", LibraryReply),
    ("cafeteria", CafeteriaReply),
    ("hostel", HostelReply),
    ("fees", FeesReply),
    ("admission", AdmissionReply),
    ("exams", ExamsReply),
    ("wifi", WifiReply),
    ("sports", SportsReply),
    ("bus", BusReply),
    ("holiday", HolidayReply),
    ("reminder", ReminderReply)
  ]

  const HelloReply: string := "Hello! How can I help you today?"
  const HiReply: string := "Hi there! How may I assist you?"
  const WhoAreYouReply: string := "I'm the Yenepoya University campus chatbot. I can answer questions about courses, facilities, events, and other campus related information."
  const CoursesReply: string := "Yenepoya University offers various undergraduate and postgraduate programs in Medicine, Dentistry, Nursing, Pharmacy, Physiotherapy, and many more. What specific course are you interested in?"
  const LibraryReply: string := "The central library is open from 8 AM to 10 PM on weekdays, and 9 AM to 5 PM on weekends. It has over 50,000 books and journals across various disciplines."
  const CafeteriaReply: string := "There are multiple cafeterias on campus. The main cafeteria is open from 7:30 AM to 9 PM and serves breakfast, lunch, and dinner. There are also coffee shops and food kiosks around campus."
  const HostelReply: string := "Yenepoya University provides separate hostel facilities for boys and girls with furnished rooms, Wi-Fi, recreational areas, and 24/7 security. For more details, please contact the hostel warden."
  const FeesReply: string := "Fee structures vary based on the program. Please visit the university website or contact the admissions office for detailed information on fees for specific courses."
  const AdmissionReply: string := "Admissions are typically based on entrance exams and previous academic performance. The admission process usually starts in January each year. For specific programs, please check the university website."
  const ExamsReply: string := "The examination schedule is published on the university portal at least 3 weeks before exams begin. Make sure to check regularly for any updates."
  const WifiReply: string := "Free Wi-Fi is available across the campus. Connect to 'Yenepoya_Student' network and use your student login credentials."
  const SportsReply: string := "The university has facilities for cricket, football, basketball, tennis, badminton, and indoor games. The sports complex is open from 6 AM to 8 PM."
  const BusReply: string := "University buses operate on multiple routes covering major parts of the city. Bus schedules are available at the transport office and on the university app."
  const HolidayReply: string := "Please check the academic calendar on the university website or portal for the list of holidays and semester breaks."
  const ReminderReply: string := "I can set a reminder for you. Please specify what you'd like to be reminded about and when."

  const Fallback: string := "I'm not sure about that. Could you rephrase your question or ask about campus facilities, courses, or schedules?"

  /** No keyword among the first `n` table entries occurs in the query. */
  predicate NoMatchBefore(table: seq<(string, string)>, lowerQuery: string, n: int) {
    forall j :: 0 <= j < n && j < |table| ==> !Contains(lowerQuery, table[j].0)
  }

  /** The `for…of` scan of `getResponse`: the reply of the first entry, in table order,
      whose keyword occurs in the query, or the fallback when none does. */
  function Route(table: seq<(string, string)>, fallback: string, lowerQuery: string): (r: string)
    ensures forall i :: 0 <= i < |table| && Contains(lowerQuery, table[i].0) && NoMatchBefore(table, lowerQuery, i)
              ==> r == table[i].1
    ensures NoMatchBefore(table, lowerQuery, |table|) ==> r == fallback
    ensures r == fallback || exists i :: 0 <= i < |table| && r == table[i].1
  {
    if table == [] then fallback
    else if Contains(lowerQuery, table[0].0) then table[0].1
    else
      var r := Route(table[1..], fallback, lowerQuery);
      assert forall i :: 1 <= i < |table| ==> table[1..][i - 1] == table[i];
      r
  }

  /** `getResponse(query)`. */
  function GetResponse(query: string): (r: string)
    ensures r == Fallback || exists i :: 0 <= i < |MockResponses| && r == MockResponses[i].1
  {
    Route(MockResponses, Fallback, Lower(query))
  }

  // ---- properties of the router -----------------------------------------------

  /** Shadowing: once an entry's keyword occurs, the entries after it are never
      consulted, so they cannot change the reply. */
  lemma {:induction false} LaterEntriesShadowed(table: seq<(string, string)>, fallback: string, lowerQuery: string, i: nat)
    requires i < |table| && Contains(lowerQuery, table[i].0)
    ensures Route(table, fallback, lowerQuery) == Route(table[..i + 1], fallback, lowerQuery)
  {
    if !Contains(lowerQuery, table[0].0) {
      assert table[..i + 1][1..] == table[1..][..i];
      LaterEntriesShadowed(table[1..], fallback, lowerQuery, i - 1);
    }
  }

  /** Case does not matter: `getResponse(q) == getResponse(q.toLowerCase())`. */
  lemma GetResponseCaseInsensitive(query: string)
    ensures GetResponse(query) == GetResponse(Lower(query))
  {
    LowerIdempotent(query);
  }

  /** Every reply of the table is non-empty, and so is the fallback. */
  lemma RepliesNonEmpty()
    ensures Fallback != ""
    ensures forall i :: 0 <= i < |MockResponses| ==> MockResponses[i].1 != ""
  {
  }

  /** The router always answers with a non-empty string. */
  lemma GetResponseNonEmpty(query: string)
    ensures GetResponse(query) != ""
  {
    RepliesNonEmpty();
  }

  // ---- the "Set Reminder" quick action ----------------------------------------------

  /** The keywords of the table, in order. */
  lemma Keywords()
    ensures |MockResponses| == 15
    ensures MockResponses[0].0 == "hello" && MockResponses[1].0 == "hi" && MockResponses[2].0 == "who are you"
    ensures MockResponses[3].0 == "courses" && MockResponses[4].0 == "library" && MockResponses[5].0 == "cafeteria"
    ensures MockResponses[6].0 == "hostel" && MockResponses[7].0 == "fees" && MockResponses[8].0 == "admission"
    ensures MockResponses[9].0 == "exams" && MockResponses[10].0 == "wifi" && MockResponses[11].0 == "sports"
    ensures MockResponses[12].0 == "bus" && MockResponses[13].0 == "holiday" && MockResponses[14].0 == "reminder"
  {
  }

  /** A query without 'h', 'w', 'l' and 's', and without one of 'c' and 'f', matches none
      of the fourteen keywords before "reminder". */
  lemma NoEarlierKeyword(q: string)
    requires 'h' !in q && 'w' !in q && 'l' !in q && 's' !in q
    requires 'c' !in q || 'f' !in q
    ensures NoMatchBefore(MockResponses, q, 14)
  {
    Keywords();
    NotContainsMissing(q, "hello", 'h');
    NotContainsMissing(q, "hi", 'h');
    NotContainsMissing(q, "who are you", 'w');
    NotContainsMissing(q, "courses", 's');
    NotContainsMissing(q, "library", 'l');
    if 'c' !in q {
      NotContainsMissing(q, "cafeteria", 'c');
    } else {
      NotContainsMissing(q, "cafeteria", 'f');
    }
    NotContainsMissing(q, "hostel", 'h');
    NotContainsMissing(q, "fees", 's');
    NotContainsMissing(q, "admission", 's');
    NotContainsMissing(q, "exams", 's');
    NotContainsMissing(q, "wifi", 'w');
    NotContainsMissing(q, "sports", 's');
    NotContainsMissing(q, "bus", 's');
    NotContainsMissing(q, "holiday", 'h');
  }

  /** Shadowing in the table itself: a query that mentions "hello" gets the greeting,
      even when it also mentions "library", wherever the two occur. */
  lemma HelloShadowsLibrary(query: string)
    requires Contains(Lower(query), "hello") && Contains(Lower(query), "library")
    ensures GetResponse(query) == HelloReply
    ensures GetResponse(query) != LibraryReply
  {
    Keywords();
    assert NoMatchBefore(MockResponses, Lower(query), 0);
    assert |HelloReply| < |LibraryReply|;
  }

  /** The text `handleSetReminder` puts in the input box. */
  const QuickReminderPrompt: string := "Can you remind me about my next exam?"

  /** The letters of the lower-cased prompt: no 'h', 'w', 'l', 's' or 'f', and one 'r',
      the one of "remind". */
  lemma QuickReminderLetters()
    ensures forall i :: 0 <= i < |QuickReminderPrompt| ==>
              && LowerChar(QuickReminderPrompt[i]) !in {'h', 'w', 'l', 's', 'f'}
              && (LowerChar(QuickReminderPrompt[i]) == 'r' ==> i == 8)
  {
  }

  /** A query whose letters, lower-cased, avoid 'h', 'w', 'l', 's' and 'f' lacks them
      once lower-cased. */
  lemma AvoidedLetters(q: string)
    requires forall i :: 0 <= i < |q| ==> LowerChar(q[i]) !in {'h', 'w', 'l', 's', 'f'}
    ensures 'h' !in Lower(q) && 'w' !in Lower(q) && 'l' !in Lower(q) && 's' !in Lower(q) && 'f' !in Lower(q)
  {
  }

  /** "reminder" starts and ends with 'r', so it cannot occur in a lower-cased query with
      one 'r' at most. */
  lemma OneRNoReminder(q: string, k: int)
    requires forall i :: 0 <= i < |q| ==> (LowerChar(q[i]) == 'r' ==> i == k)
    ensures !Contains(Lower(q), ReminderTrigger)
  {
    NotContainsRepeated(Lower(q), ReminderTrigger, 'r', k, 0, 7);
  }

  /** "remind" is not "reminder". */
  lemma QuickReminderLacksTrigger()
    ensures !Contains(Lower(QuickReminderPrompt), ReminderTrigger)
  {
    QuickReminderLetters();
    OneRNoReminder(QuickReminderPrompt, 8);
  }

  /** The quick action's prompt, sent as it is, matches no keyword at all: the bot
      falls back and no reminder is confirmed. */
  lemma QuickReminderPromptFallsBack()
    ensures GetResponse(QuickReminderPrompt) == Fallback
    ensures !Contains(Lower(QuickReminderPrompt), ReminderTrigger)
  {
    var q := Lower(QuickReminderPrompt);
    QuickReminderLetters();
    AvoidedLetters(QuickReminderPrompt);
    OneRNoReminder(QuickReminderPrompt, 8);
    NoEarlierKeyword(q);
    Keywords();
    assert NoMatchBefore(MockResponses, q, |MockResponses|);
  }

  /** A prompt for the quick action that names the keyword the page listens for. */
  const ReminderPrompt: string := "Add a reminder for my next exam"

  /** The letters of the lower-cased prompt: no 'h', 'w', 'l', 's' or 'c', and the
      keyword from position 6. */
  lemma ReminderLetters()
    ensures |ReminderPrompt| == 31
    ensures forall i :: 0 <= i < |ReminderPrompt| ==> LowerChar(ReminderPrompt[i]) !in {'h', 'w', 'l', 's', 'c'}
    ensures forall k :: 0 <= k < |ReminderTrigger| ==> LowerChar(ReminderPrompt[6 + k]) == ReminderTrigger[k]
  {
  }

  /** A query whose letters, lower-cased, avoid 'h', 'w', 'l', 's' and 'c' and spell
      "reminder" from position 6 lacks those letters once lower-cased and contains
      "reminder". */
  lemma ReminderLettersContain(q: string)
    requires |q| >= 6 + |ReminderTrigger|
    requires forall i :: 0 <= i < |q| ==> LowerChar(q[i]) !in {'h', 'w', 'l', 's', 'c'}
    requires forall k :: 0 <= k < |ReminderTrigger| ==> LowerChar(q[6 + k]) == ReminderTrigger[k]
    ensures 'h' !in Lower(q) && 'w' !in Lower(q) && 'l' !in Lower(q) && 's' !in Lower(q) && 'c' !in Lower(q)
    ensures Contains(Lower(q), ReminderTrigger)
  {
    var lq := Lower(q);
    assert lq[6..6 + |ReminderTrigger|] == ReminderTrigger;
    assert OccursAt(lq, ReminderTrigger, 6);
    ContainsAt(lq, ReminderTrigger);
  }

  /** With that prompt the quick action does what its label says: the bot answers with
      the reminder reply and the reminder is confirmed. */
  lemma ReminderPromptSetsReminder()
    ensures GetResponse(ReminderPrompt) == ReminderReply
    ensures Contains(Lower(ReminderPrompt), ReminderTrigger)
  {
    var q := Lower(ReminderPrompt);
    ReminderLetters();
    ReminderLettersContain(ReminderPrompt);
    NoEarlierKeyword(q);
    Keywords();
  }

  // ---- the conversation ---------------------------------------------------------

  datatype Sender = User | Bot

  /** `Message`, without its `timestamp`. */
  datatype Message = Message(id: int, text: string, sender: Sender)

  const Welcome: string := "Hello! I'm your Yenepoya University campus assistant. How can I help you today?"

  /** The input containing this word makes the page confirm a reminder. */
  const ReminderTrigger: string := "reminder"

  /** The state `Chatbot` keeps with `useState`: the message list, the text in the input
      box and the typing indicator. */
  class ChatSession {
    var messages: seq<Message>
    var input: string
    var isTyping: bool

    /** Messages are numbered 1, 2, 3, ... in the order they were added. */
    predicate Valid()
      reads this
    {
      forall i :: 0 <= i < |messages| ==> messages[i].id == i + 1
    }

    /** The initial state: one welcome message from the bot, an empty input. */
    constructor ()
      ensures Valid()
      ensures messages == [Message(1, Welcome, Bot)] && input == "" && !isTyping
    {
      messages := [Message(1, Welcome, Bot)];
      input := "";
      isTyping := false;
    }

    /** The input box's `onChange` and the quick-action buttons. */
    method SetInput(text: string)
      modifies this
      ensures input == text
      ensures messages == old(messages) && isTyping == old(isTyping)
    {
      input := text;
    }

    /** The "Set Reminder" quick action (`handleSetReminder`), with a prompt that contains
        the keyword the page reacts to; see `ReminderPromptSetsReminder`. */
    method SetReminder()
      modifies this
      ensures input == ReminderPrompt
      ensures messages == old(messages) && isTyping == old(isTyping)
    {
      input := ReminderPrompt;
    }

    /** `handleSendMessage`, with the bot's delayed reply delivered at once. A blank
        input changes nothing. Otherwise the user's message is numbered `length + 1`
        and the bot's `length + 2`, both are appended in that order, the input box is
        cleared, and `reminderSet` reports the "Reminder set" confirmation. */
    method SendMessage() returns (reminderSet: bool)
      requires Valid()
      modifies this
      ensures Valid()
      ensures IsBlank(old(input)) ==>
                messages == old(messages) && input == old(input) && isTyping == old(isTyping) && !reminderSet
      ensures !IsBlank(old(input)) ==>
                && messages == old(messages) + [Message(|old(messages)| + 1, old(input), User),
                                                Message(|old(messages)| + 2, GetResponse(old(input)), Bot)]
                && input == ""
                && !isTyping
                && reminderSet == Contains(Lower(old(input)), ReminderTrigger)
    {
      var text, n := input, |messages|;
      if IsBlank(text) {
        return false;
      }
      var reply := GetResponse(text);
      ghost var before := messages;
      messages := messages + [Message(n + 1, text, User)];
      input := "";
      isTyping := true;
      // the delayed callback: the bot's answer
      messages := messages + [Message(n + 2, reply, Bot)];
      isTyping := false;
      assert messages == before + [Message(n + 1, text, User), Message(n + 2, reply, Bot)];
      assert forall i :: 0 <= i < n ==> messages[i] == before[i];
      reminderSet := Contains(Lower(text), ReminderTrigger);
    }
  }
}
