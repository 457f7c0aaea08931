/**
  The chat API route: it rejects a request without a message, builds the
  prompt handed to the language model (prior turns followed by the new
  user turn), and labels the user's message with an emotion by ordered
  keyword matching, crisis first.
 */
module ChatRoute {
  import opened Basics
  import opened Text

  /** The closed set of labels the route can return. */
  datatype Emotion = Crisis | Sad | Anxious | Angry | Happy | Calm | Neutral

  /** The label as it appears in the JSON reply. */
  function EmotionName(e: Emotion): string
  {
    match e
    case Crisis => "crisis"
    case Sad => "sad"
    case Anxious => "anxious"
    case Angry => "angry"
    case Happy => "happy"
    case Calm => "calm"
    case Neutral => "neutral"
  }

  /** One row of the keyword table: a label and the substrings that select it. */
  datatype Category = Category(emotion: Emotion, keywords: seq<string>)

  const CrisisKeywords: seq<string> := [
    "suicide", "suicidal", "suicde", "kill myself", "end my life", "want to die",
    "don't want to live", "self harm", "self-harm", "hurt myself", "cutting",
    "overdose", "end it all", "no reason to live", "better off dead", "kill me",
    "take my life", "harm myself", "death", "dying", "hopeless"
  ]

  const SadKeywords: seq<string> := [
    "sad", "depressed", "depression", "down", "unhappy", "miserable", "lonely",
    "crying", "cry", "tears", "heartbroken", "grief", "loss", "empty", "numb",
    "worthless", "useless", "failure", "hate myself", "broken"
  ]

  const AnxiousKeywords: seq<string> := [
    "anxious", "anxiety", "worried", "worry", "nervous", "stressed", "stress",
    "overwhelmed", "panic", "panicking", "scared", "fear", "afraid", "terrified",
    "can't breathe", "heart racing", "trembling", "shaking", "restless"
  ]

  const AngryKeywords: seq<string> := [
    "angry", "frustrated", "mad", "furious", "irritated", "annoyed", "rage",
    "hate", "resentment", "bitter", "upset", "pissed", "enraged"
  ]

  const HappyKeywords: seq<string> := [
    "happy", "great", "wonderful", "excited", "amazing", "love", "joy", "joyful",
    "grateful", "thankful", "blessed", "content", "pleased", "delighted", "glad"
  ]

  const CalmKeywords: seq<string> := [
    "calm", "peaceful", "relaxed", "serene", "tranquil", "at peace", "centered",
    "grounded", "balanced", "mindful", "present"
  ]

  /** The keyword table in the order its entries are enumerated. */
  const EmotionKeywords: seq<Category> := [
    Category(Crisis, CrisisKeywords),
    Category(Sad, SadKeywords),
    Category(Anxious, AnxiousKeywords),
    Category(Angry, AngryKeywords),
    Category(Happy, HappyKeywords),
    Category(Calm, CalmKeywords)
  ]

  /** The crisis row comes first and is the only crisis row. */
  lemma TableShape()
    ensures |EmotionKeywords| == 6
    ensures EmotionKeywords[0] == Category(Crisis, CrisisKeywords)
    ensures forall j :: 1 <= j < |EmotionKeywords| ==> EmotionKeywords[j].emotion != Crisis
    ensures forall j :: 0 <= j < |EmotionKeywords| ==> EmotionKeywords[j].emotion != Neutral
  {
  }

  /** Some keyword of row `i` of `rows` occurs in the (already lower-cased) text. */
  predicate RowMatches(lower: string, rows: seq<Category>, i: int)
    requires 0 <= i < |rows|
  {
    ContainsAny(lower, rows[i].keywords)
  }

  /** No non-crisis row of `rows` in positions `from .. to - 1` matches. */
  predicate NoMatchBetween(lower: string, rows: seq<Category>, from: int, to: int)
    requires 0 <= from && to <= |rows|
  {
    forall j :: from <= j < to && rows[j].emotion != Crisis ==> !RowMatches(lower, rows, j)
  }

  /**
    Row `i` is the first non-crisis row, in table order, whose keywords
    occur in `lower`: it matches, and no earlier non-crisis row does.
   */
  predicate FirstMatchingRow(lower: string, rows: seq<Category>, i: int)
    requires 0 <= i < |rows|
  {
    && rows[i].emotion != Crisis
    && RowMatches(lower, rows, i)
    && NoMatchBetween(lower, rows, 0, i)
  }

  /**
    The category loop over `rows` from position `from` on: crisis rows are
    skipped, the first row with a match decides, and `Neutral` is kept
    when none does.
   */
  function ScanRows(lower: string, rows: seq<Category>, from: nat): (r: Emotion)
    requires from <= |rows|
    requires forall j :: 0 <= j < |rows| ==> rows[j].emotion != Neutral
    ensures r != Crisis
    ensures r == Neutral <==> NoMatchBetween(lower, rows, from, |rows|)
    ensures r != Neutral ==>
      exists i :: (from <= i < |rows| && r == rows[i].emotion && rows[i].emotion != Crisis &&
                   RowMatches(lower, rows, i) && NoMatchBetween(lower, rows, from, i))
    decreases |rows| - from
  {
    if from == |rows| then Neutral
    else if rows[from].emotion != Crisis && RowMatches(lower, rows, from) then
      assert NoMatchBetween(lower, rows, from, from);
      rows[from].emotion
    else
      var r := ScanRows(lower, rows, from + 1);
      assert NoMatchBetween(lower, rows, from + 1, |rows|) ==> NoMatchBetween(lower, rows, from, |rows|);
      assert forall i :: from + 1 <= i <= |rows| && NoMatchBetween(lower, rows, from + 1, i) ==>
        NoMatchBetween(lower, rows, from, i);
      r
  }

  /** Two matching rows with no match between them are the same row. */
  lemma FirstMatchUnique(lower: string, rows: seq<Category>, a: int, b: int)
    requires 0 <= a < |rows| && 0 <= b < |rows|
    requires FirstMatchingRow(lower, rows, a) && FirstMatchingRow(lower, rows, b)
    ensures a == b
  {
  }

  /** Some crisis keyword occurs in the lower-cased message. */
  predicate CrisisMatch(message: string)
  {
    ContainsAny(Lower(message), CrisisKeywords)
  }

  /** No keyword of any row occurs in the lower-cased message. */
  predicate NoKeywordMatches(message: string)
  {
    forall i :: 0 <= i < |EmotionKeywords| ==> !RowMatches(Lower(message), EmotionKeywords, i)
  }

  /** The emotions of the table's rows are pairwise different. */
  lemma RowEmotionsDistinct()
    ensures forall i, j :: 0 <= i < j < |EmotionKeywords| ==> EmotionKeywords[i].emotion != EmotionKeywords[j].emotion
  {
  }

  /**
    The emotion label of a user message: crisis first and unconditionally,
    otherwise the first matching row in table order, otherwise neutral.
   */
  function DetectEmotion(message: string): (r: Emotion)
    ensures r == Crisis <==> CrisisMatch(message)
    ensures r == Neutral <==> NoKeywordMatches(message)
    ensures !CrisisMatch(message) ==>
      forall i :: 0 <= i < |EmotionKeywords| && EmotionKeywords[i].emotion != Crisis ==>
        (r == EmotionKeywords[i].emotion <==> FirstMatchingRow(Lower(message), EmotionKeywords, i))
  {
    var lower := Lower(message);
    var rows := EmotionKeywords;
    TableShape();
    if ContainsAny(lower, rows[0].keywords) then
      assert RowMatches(lower, rows, 0);
      Crisis
    else
      var r := ScanRows(lower, rows, 0);
      RowEmotionsDistinct();
      forall i | 0 <= i < |rows| && rows[i].emotion != Crisis
        ensures r == rows[i].emotion <==> FirstMatchingRow(lower, rows, i)
      {
        if r == rows[i].emotion {
          var k :| 0 <= k < |rows| && r == rows[k].emotion && rows[k].emotion != Crisis &&
            RowMatches(lower, rows, k) && NoMatchBetween(lower, rows, 0, k);
          assert k == i;
        }
        if FirstMatchingRow(lower, rows, i) {
          assert !NoMatchBetween(lower, rows, 0, |rows|);
          var k :| 0 <= k < |rows| && r == rows[k].emotion && rows[k].emotion != Crisis &&
            RowMatches(lower, rows, k) && NoMatchBetween(lower, rows, 0, k);
          FirstMatchUnique(lower, rows, i, k);
        }
      }
      r
  }

  /** The label depends on the message only through its lower-cased form. */
  lemma DetectEmotionCaseInsensitive(a: string, b: string)
    ensures DetectEmotion(Lower(a)) == DetectEmotion(a)
    ensures Lower(a) == Lower(b) ==> DetectEmotion(a) == DetectEmotion(b)
  {
    LowerIdempotent(a);
  }

  /**
    A crisis keyword wins over every other keyword: "I feel happy but I
    want to die" is a crisis, not happy.
   */
  lemma CrisisOverridesHappy(message: string)
    requires Contains(Lower(message), "want to die")
    ensures DetectEmotion(message) == Crisis
  {
    assert CrisisKeywords[5] == "want to die";
  }

  /**
    Earlier rows shadow later ones: "hate myself" is a sad keyword and
    also contains the angry keyword "hate", yet the label is sad.
   */
  lemma SadShadowsAngry(message: string)
    requires Contains(Lower(message), "hate myself")
    requires !CrisisMatch(message)
    ensures RowMatches(Lower(message), EmotionKeywords, 3)
    ensures DetectEmotion(message) == Sad
  {
    assert SadKeywords[18] == "hate myself";
    assert AngryKeywords[7] == "hate";
    assert OccursAt("hate myself", "hate", 0);
    ContainsTransitive(Lower(message), "hate myself", "hate");
    assert FirstMatchingRow(Lower(message), EmotionKeywords, 1);
  }

  /**
    Matching is plain substring containment, so a keyword inside a longer
    word counts: "download" carries the sad keyword "down".
   */
  lemma KeywordInsideWord(message: string)
    requires Contains(Lower(message), "download")
    requires !CrisisMatch(message)
    ensures DetectEmotion(message) == Sad
  {
    assert SadKeywords[3] == "down";
    assert OccursAt("download", "down", 0);
    ContainsTransitive(Lower(message), "download", "down");
    assert FirstMatchingRow(Lower(message), EmotionKeywords, 1);
  }

  /** A turn of the conversation as the language model sees it. */
  datatype Role = UserRole | AssistantRole
  datatype Turn = Turn(role: Role, content: string)

  /** The JSON body of a request: both fields may be absent. */
  datatype ChatRequest = ChatRequest(message: Option<string>, conversationHistory: Option<seq<Turn>>)

  /** The JSON body of a reply. */
  datatype ReplyBody =
    | Answer(response: string, emotion: string)
    | Problem(error: string)

  datatype Reply = Reply(status: int, body: ReplyBody)

  /**
    The prompt handed to the model: the prior turns (none when absent)
    followed by exactly one user turn carrying the message.
   */
  function BuildPrompt(history: Option<seq<Turn>>, message: string): (r: seq<Turn>)
    ensures history.None? ==> r == [Turn(UserRole, message)]
    ensures history.Some? ==>
      |r| == |history.value| + 1 && r[..|history.value|] == history.value
    ensures r[|r| - 1] == Turn(UserRole, message)
  {
    var prior := match history case Some(h) => h case None => [];
    prior + [Turn(UserRole, message)]
  }

  /**
    The request handler. `generate` stands for the hosted model call:
    it receives the prompt and yields the reply text, or `None` when the
    call throws.
   */
  function HandleChat(request: ChatRequest, generate: seq<Turn> -> Option<string>): (r: Reply)
    ensures r.status in {200, 400, 500}
    ensures r.status == 400 <==> request.message.None? || request.message.value == ""
    ensures r.status == 400 ==> r.body == Problem("Message is required")
    ensures r.status != 400 ==>
      var prompt := BuildPrompt(request.conversationHistory, request.message.value);
      && (r.status == 500 <==> generate(prompt).None?)
      && (r.status == 500 ==> r.body == Problem("Failed to generate response"))
      && (r.status == 200 ==>
            r.body == Answer(generate(prompt).value, EmotionName(DetectEmotion(request.message.value))))
  {
    match request.message
    case None => Reply(400, Problem("Message is required"))
    case Some(message) =>
      if message == "" then Reply(400, Problem("Message is required"))
      else
        var prompt := BuildPrompt(request.conversationHistory, message);
        match generate(prompt)
        case None => Reply(500, Problem("Failed to generate response"))
        case Some(text) => Reply(200, Answer(text, EmotionName(DetectEmotion(message))))
  }

  /** An accepted request always carries one of the seven label names. */
  lemma ReplyEmotionIsKnown(request: ChatRequest, generate: seq<Turn> -> Option<string>)
    ensures HandleChat(request, generate).body.Answer? ==>
      HandleChat(request, generate).status == 200 &&
      HandleChat(request, generate).body.emotion in
        {"crisis", "sad", "anxious", "angry", "happy", "calm", "neutral"}
  {
  }
}
