# Kanha chat: a Dafny model of its chat logic

This project models the four small pieces of logic behind the "Talk to your
Kanha" chat, and proves properties of them:

- **the chat screen** (`frontend/src/App.tsx`). The draft, the message log
  and the loading flag form the class `ChatController.Chat`. The `send`
  handler is split at its `await`. `Press` is the Send button, which is
  disabled while loading, plus the synchronous start of `send`. `Resolve`
  is the code after the `await`, and it takes the outcome of the POST as a
  value. `Send` runs both. The emotion icon and colour tables are total
  functions.
- **the chat endpoint** (`backend/app/main.py`), module `ReplyRouter`. It
  does a case-insensitive crisis keyword check first. Otherwise the
  detected emotion label picks one of five fixed replies.
- **response post-processing** (`backend/app/gita_response.py`), module
  `GitaResponse`. It collapses whitespace, cuts the text to 40 words, picks
  a Gita quote for the emotion (falling back to the "default" list), joins
  and strips, and falls back to a default quote when generation fails.
- **emotion selection** (`backend/app/emotion.py`), module `Emotion`. Blank
  text gives `("neutral", 0.0)`. Otherwise it returns the first
  highest-scoring candidate with its label lower-cased, or `("error", 0.0)`
  when the classifier fails.

`Text` holds the Python and JavaScript string built-ins these use, over
ASCII: `strip`/`trim`, `lower`, `split`, `" ".join` and substring search.
`Exchange` connects the two ends for one request and reply.

External parts become parameters:
- the emotion classifier is a function from text to "raised" or a list of
  result lists of scored candidates, of which only the first is read;
- the text generator is a function from prompt to "raised" or a raw text;
- the echo-removing regular expressions are any function of the user input
  and the raw text;
- `random.choice` is an index `pick` into the list, and `PickCovers` shows
  every element can be chosen;
- the HTTP call is a `Success(reply)` or `Failure` outcome.

## Model

| member | source | states |
|---|---|---|
| ChatController.EmotionIcon | frontend/src/App.tsx:12-27 | The icon is the default 🕉️ exactly when the label is absent or not one of joy, sadness, anger, fear or surprise. |
| ChatController.IconsDistinct | frontend/src/App.tsx:14-23 | The five labels with icons each get a different icon. |
| ChatController.EmotionColor | frontend/src/App.tsx:29-42 | The colour is the default #e0e0e0 exactly when the label is absent or not one of joy, sadness, anger or fear, so "surprise" gets the default. |
| ChatController.AlternatingCounts | frontend/src/App.tsx:49-79 | In a log where turns alternate starting with the user, there are ceil(n/2) user messages and floor(n/2) assistant messages: each user message gets exactly one answer, except the one still pending. |
| ChatController.CountRolesPartition | frontend/src/App.tsx:51-75 | Every message in the log is the user's or the assistant's, so the two counts add up to the length of the log. |
| ChatController.UserMessage | frontend/src/App.tsx:51 | The draft as typed, from the user, with no annotations. It has no contract of its own; `Chat.Press` states where it goes. |
| ChatController.AssistantMessage | frontend/src/App.tsx:62-75 | The reply's text, emotion, confidence and crisis flag on success, and "Server error. Please try again." with no annotations on failure. It has no contract of its own; `Chat.Resolve` and the `Exchange` lemmas state what it shows. |
| ChatController.Chat.constructor | frontend/src/App.tsx:45-47 | The screen starts with an empty draft, an empty log and no request outstanding, and the log invariant holds. |
| ChatController.Chat.Edit | frontend/src/App.tsx:119 | Typing replaces the draft and keeps the log invariant; the log and the loading flag are untouched. |
| ChatController.Chat.Press | frontend/src/App.tsx:49-60 | A request is issued iff nothing is loading (the button at line 124 is disabled while loading) and the draft is not all whitespace. If issued, the request carries user id "user1" and the untrimmed draft, the log gains exactly that user message, the draft becomes "" and loading is set. Otherwise nothing changes. Alternation and "loading iff the log has odd length" are kept. |
| ChatController.Chat.Resolve | frontend/src/App.tsx:62-79 | When the request ends, exactly one assistant message is appended and loading is cleared. On success it carries the reply's text, emotion, confidence and crisis flag. On failure it is "Server error. Please try again." with no annotations. Earlier messages and the draft are untouched. |
| ChatController.Chat.Send | frontend/src/App.tsx:49-80 | A whole send: if it goes ahead, the log becomes the old log plus [user message, assistant message] in that order, the draft is "" and loading is false. A blank draft, or a press while loading, changes nothing. |
| ReplyRouter.CrisisCheck | backend/app/main.py:21-23 | True iff the lower-cased text contains one of "suicide", "kill myself", "end my life" or "want to die" as a substring. |
| ReplyRouter.AnyKeyword | backend/app/main.py:23 | True iff some keyword of the list occurs in the text as a substring. |
| ReplyRouter.CrisisCheckIgnoresCase | backend/app/main.py:22 | Lower-casing the text first does not change the verdict. |
| ReplyRouter.EmptyIsNoCrisis | backend/app/main.py:15 | The empty message contains no keyword. |
| ReplyRouter.ReplyFor | backend/app/main.py:48-68 | The reply is the "I'm listening…" text exactly when the label is none of sadness, joy, anger or fear. |
| ReplyRouter.RepliesDistinct | backend/app/main.py:48-64 | The four recognised labels get four different replies. |
| ReplyRouter.Chat | backend/app/main.py:26-75 | The response is flagged as a crisis iff the crisis check holds, and then it is the fixed crisis text with emotion "crisis" and no confidence. Otherwise it is not flagged, its emotion and confidence are exactly what detection returns, and its text is the reply for that emotion. A missing message counts as "". |
| ReplyRouter.CrisisSkipsDetector | backend/app/main.py:30-41 | On a crisis message the response does not depend on the classifier at all. |
| ReplyRouter.MissingMessageIsNeutral | backend/app/main.py:27 | A missing message is no crisis and gets emotion "neutral", confidence 0.0 and the "I'm listening…" reply. |
| Emotion.FirstMax | backend/app/emotion.py:23 | The index has the largest score, and every earlier candidate scores strictly less: Python's `max` picks the first maximum. |
| Emotion.FirstMaxUnique | backend/app/emotion.py:23 | At most one index is the first maximum. |
| Emotion.DetectEmotion | backend/app/emotion.py:12-27 | All-whitespace text gives ("neutral", 0.0). A classifier that raises, an empty result list or an empty candidate list gives ("error", 0.0). Otherwise the result is the lower-cased label and the score of the first highest-scoring candidate of the first result list. |
| Emotion.DetectionIsMaximal | backend/app/emotion.py:22-24 | The returned score is at least every candidate's score, and the returned pair is some candidate with its label lower-cased. |
| Emotion.BlankSkipsClassifier | backend/app/emotion.py:17-18 | On blank text the result does not depend on the classifier. |
| Text.StripEmptyIffAllSpace | backend/app/emotion.py:17 | Stripping gives "" exactly when the text is all whitespace. This is the blank test here and in the screen's `!text.trim()`. |
| Text.Strip | backend/app/gita_response.py:60 | The result has no whitespace at either end. It is `TrimRight(TrimLeft(s))`, and the contracts of those two say the result is a slice of the text from which only whitespace at the two ends was dropped, so inner whitespace is kept. `StripEmptyIffAllSpace`, `StripNoEdgeSpace` and `WordsOfStrip` follow from that. |
| Text.TrimLeft | backend/app/emotion.py:17 | The result is a suffix of the text that is empty or starts with a non-whitespace character, and every dropped character is whitespace. |
| Text.TrimRight | backend/app/emotion.py:17 | The result is a prefix of the text that is empty or ends with a non-whitespace character, and every dropped character is whitespace. |
| Text.StripNoEdgeSpace | backend/app/gita_response.py:70 | Stripping text that has no whitespace at its ends changes nothing. |
| Text.StripKeepsSpacing | backend/app/gita_response.py:60 | Stripping keeps "no two whitespace characters in a row" and "only plain spaces". |
| Text.WordsOfStrip | backend/app/gita_response.py:60 | `s.strip().split() == s.split()`: stripping removes no word. |
| Text.Lower | backend/app/main.py:22 | The result has the text's length, every ASCII capital replaced by its small letter, and every other character unchanged. |
| Text.LowerIdempotent | backend/app/main.py:22 | Lower-casing twice equals lower-casing once. |
| Text.Contains | backend/app/main.py:23 | `k in s` holds iff `k` occurs at some position of `s`. |
| Text.Words | backend/app/gita_response.py:63 | Every element is non-empty and free of whitespace. `WordsOfJoin` and `CleanIsJoin` relate it to the join in both directions. |
| Text.JoinSpace | backend/app/gita_response.py:64 | No contract of its own. `WordsOfJoin` shows that splitting undoes it, `CleanIsJoin` that clean text is the join of its words, and `JoinAppend` where an appended suffix lands. |
| Text.WordsOfJoin | backend/app/gita_response.py:64 | Splitting a space-join of words gives back the same words. |
| Text.CleanIsJoin | backend/app/gita_response.py:60 | Text with no whitespace at its ends, no two whitespace characters in a row and only plain spaces is the space-join of its own words. |
| Text.JoinAppend | backend/app/gita_response.py:64 | Appending a suffix to a space-join appends it to the last word. |
| GitaResponse.QuotesWellFormed | backend/app/gita_response.py:19-40 | The table has a "default" key, every quote list is non-empty, and every quote is non-empty with no whitespace at its ends. |
| GitaResponse.QuotesFor | backend/app/gita_response.py:67 | The list for a known emotion is its own list, and any other emotion (e.g. "surprise") gets the "default" list. The list is never empty. |
| GitaResponse.Pick | backend/app/gita_response.py:67 | The choice is an element of the list. `PickCovers` shows that every element can be chosen. |
| GitaResponse.PickCovers | backend/app/gita_response.py:67 | Every quote of the list can be the random choice. |
| GitaResponse.Squash | backend/app/gita_response.py:60 | After the substitution no two whitespace characters are adjacent, every whitespace is a plain space, the text is empty or starts with whitespace iff the input is or does, and it ends with whitespace iff the input does. `WordsOfSquash` shows the non-whitespace characters survive in order. |
| GitaResponse.WordsOfSquash | backend/app/gita_response.py:60 | `re.sub(r"\s+", " ", s).split() == s.split()`: the substitution keeps every word, in order. |
| GitaResponse.Collapse | backend/app/gita_response.py:60 | `re.sub(r"\s+", " ", s).strip()` equals `" ".join(s.split())`: the words of the text, in order, separated by single spaces. So it has the same words as the text. |
| GitaResponse.CollapseIsClean | backend/app/gita_response.py:60 | The collapsed text has no whitespace at either end, no two adjacent whitespace characters, and only plain spaces. |
| GitaResponse.SquashFixes | backend/app/gita_response.py:60 | Text whose whitespace is already single plain spaces is unchanged by the substitution. |
| GitaResponse.CollapseIdempotent | backend/app/gita_response.py:60 | Collapsing twice equals collapsing once. |
| GitaResponse.Truncate | backend/app/gita_response.py:63-64 | Text of at most 40 words is unchanged. Longer text becomes its first 40 words, separated by single spaces (the result is the space-join of its own words), with "..." glued to the last. Either way the result has at most 40 words. |
| GitaResponse.TruncatedWords | backend/app/gita_response.py:64 | A space-join of words with a whitespace-free suffix appended splits into those words with the suffix on the last. |
| GitaResponse.TruncateKeepsEdges | backend/app/gita_response.py:63-64 | Truncating text with no whitespace at its ends keeps it so. |
| GitaResponse.Compose | backend/app/gita_response.py:68-70 | No contract of its own. `ComposeShape` shows the final strip keeps the join and drops the blank line before the quote when the response is empty. |
| GitaResponse.ComposeShape | backend/app/gita_response.py:68-70 | For a clean response and quote, `strip(response + "\n\n" + quote)` is the quote alone when the response is empty, and the unstripped join otherwise. |
| GitaResponse.Prompt | backend/app/gita_response.py:48-51 | The user input, quoted, between the fixed instruction and "Krishna Says....". No contract of its own: the generator that reads it is a parameter. |
| GitaResponse.Finish | backend/app/gita_response.py:60-70 | On the success path the result is the collapsed, truncated response joined to some quote from the emotion's list, or just that quote when the response is empty. |
| GitaResponse.KrishnaResponse | backend/app/gita_response.py:42-74 | When generation raises, the result is one of the "default" quotes. Otherwise the processed response has at most 40 words, and the result is that response joined to some quote for the emotion. |
| Exchange.Serve | frontend/src/App.tsx:57-60 | A request that reaches the endpoint always succeeds. The reply always carries an emotion and a crisis flag, and it lacks a confidence exactly when it is flagged as a crisis. |
| Exchange.CrisisTurnShown | backend/app/main.py:30-41 | A crisis message comes back on screen as an assistant message with the crisis text, isCrisis true, emotion "crisis" and no confidence. It shows the default icon and colour. |
| Exchange.OrdinaryTurnShown | backend/app/main.py:44-75 | Any other message comes back with isCrisis false, the detected emotion and score, and the reply chosen for that emotion. |

## Left out

- Model loading and inference (the `pipeline` calls) are parameters, so their outputs are arbitrary.
- The echo-removing regular expressions (gita_response.py lines 58-59) are an arbitrary function of the user input and the raw text.
- `random.choice` is an index chosen by the caller. The model says which quotes are possible, not how likely each one is.
- HTTP transport, FastAPI, CORS and pydantic validation are not modelled. The POST becomes a Success/Failure outcome, and the request body is a value.
- `Exchange.Serve` assumes every request reaches the endpoint and every reply comes back unchanged.
- Rendering and styles (App.tsx lines 82-128) are not modelled, and neither is the `console.error`/`print` logging.
- Whitespace is the six ASCII characters space, tab, LF, VT, FF and CR. `lower()` only changes ASCII letters. Python's other whitespace (U+001C-U+001F, U+0085, U+00A0 and the other Unicode spaces) and Unicode case mapping are not modelled. Nor is the larger set JavaScript's `trim()` removes in the screen's blank test (App.tsx line 50): U+00A0, U+FEFF, U+1680, U+2000-U+200A, U+2028, U+2029, U+202F, U+205F and U+3000.
- Scores are reals. NaN scores, which make Python's `max` order-dependent, are not modelled.
- Classifier output that lacks a "label" or "score" key, which Python would catch as an error, cannot occur here because candidates are typed records.
- The request message is `Option<string>`. This models the `req.message or ""` fallback even though pydantic already rejects a missing message.
- `krishna_guide.py` is not part of this model.
- Speech capture, speech playback and ambient audio do not appear in the modelled files.
- Message timestamps are not modelled: the code sets none.
- Several sends in flight at once cannot occur: the Send button is disabled while loading (App.tsx line 124), and `Press` reproduces that guard.
