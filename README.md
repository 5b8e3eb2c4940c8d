# Recent-topics history of the tweet bots

Two of the bot's scheduled handlers, the headlines bot and the random-facts
bot, avoid repeating themselves through a short history of "topic keys".
The history lives in a parameter store as one comma-joined string. Each
invocation does four things with it:

- It loads the history by splitting the stored string on commas. A first
  field that is empty means "no history".
- It derives a key from the generated post: the text before the first
  delimiter character.
- It records the key. If the key is new, it is appended. The oldest entry is
  popped once the list exceeds the bound, and the comma-join is written back.
- It does all this only when the generated text is non-empty.

The two bots run the same logic with different parameters:

- Headlines: delimiters `. ! ? :`, bound 5.
- Random facts: delimiters `. ! ? : ,`, bound 10.

The bound holds within one invocation for both bots. Across invocations it
holds for the random-facts bot (`RandomTweetsBoundAcrossStore`) but not for
the headlines bot. A headlines key may contain a comma, and such a key is
read back as two topics. One call pops only one entry, so a full headlines
history of 5 can load back as 6 topics (`HeadlinesBoundBreaks`). For either
bot, each load returns either at least as many topics as the previous load
or none at all (`HistoryNeverShrinks`). So a headlines history that has grown
past 5 stays past 5 until it is read back as empty. That happens once an
empty key reaches the front of the list.

Duplicate-freedom behaves the same way. One call keeps a duplicate-free list
duplicate-free (`RecordedDistinct`). Across invocations this holds for the
random-facts bot (`RandomTweetsDistinctAcrossStore`) but not for the
headlines bot. On the history `["a"]`, the headline "b,a." records the key
"b,a", and the next invocation loads `["a", "b", "a"]`
(`HeadlinesDuplicateOnReload`).

The model is one component with those two parameters (`History.Variant`,
instantiated as `Variants.Headlines` and `Variants.RandomTweets`). It has four
modules:

- `Serialization` (serialization.dfy): Python's `str.split(',')` and
  `','.join`, loading (`get_used_topics`), and the round trips between them.
- `TopicKey` (topic_key.dfy): the first-delimiter search and
  `extract_first_sentence`.
- `History` (history.dfy): the pure record step on the list and on the store,
  and the class `TopicHistory`. The class holds the list that an invocation
  mutates in place (`topics`) and the parameter-store value (`stored`). Its
  methods `Record` and `Save` perform the append, pop and overwrite as
  assignments to those fields.
- `Variants` (variants.dfy): the two deployments. This module proves that a
  random-facts history survives the store from one invocation to the next,
  unless the recorded list starts with an empty key. In that case the whole
  history is read back as empty. Such a key comes from a fact that starts
  with a delimiter, and eviction can move it to the front of the list. The
  module also proves that a headlines key containing a comma does not
  survive the store.

The store is modelled as the string field `stored`. Reading it is the
constructor argument of `TopicHistory.Open`, and writing it is an assignment.

## Model

| member | source | states |
|---|---|---|
| Serialization.Split | lambda_randomtweets.py:25 | The comma-split has one field more than the string has commas, and no field contains a comma. Its first field is empty exactly when the string is empty or starts with a comma. |
| Serialization.SplitSingleField | lambda_randomtweets.py:25 | A comma-free string splits into exactly one field, itself. |
| Serialization.SplitAfterField | lambda_randomtweets.py:25 | A comma-free field followed by a comma splits off as the first field, and the rest splits on its own. |
| Serialization.SplitTwoFields | lambda_headlinestweets.py:21 | Two comma-free strings joined by one comma split back into exactly those two. |
| Variants.SplitCommaKey | lambda_headlinestweets.py:21 | The stored value "Hello, world" splits into "Hello" and " world". |
| Serialization.SeparatorCountConcat | lambda_randomtweets.py:25 | The commas of a concatenation are the commas of its two parts. |
| Serialization.SeparatorCountFree | lambda_randomtweets.py:25 | A string holds no comma exactly when its comma count is zero. |
| Serialization.Join | lambda_randomtweets.py:30 | `','.join` of an empty list is the empty string. A non-empty list joins to a string with at least one comma fewer than it has elements, and exactly that many when no element holds a comma. |
| Serialization.JoinEmptyHead | lambda_randomtweets.py:30 | An empty first element joins to a leading comma. |
| Serialization.JoinConsHead | lambda_randomtweets.py:30 | A character put in front of the first element ends up in front of the joined string. |
| Serialization.JoinSplitsLastField | lambda_headlinestweets.py:37 | Joining a list whose last element holds a comma gives the same string as joining the list with that element's two halves as separate elements. |
| Serialization.JoinSplit | lambda_randomtweets.py:25-30 | Joining the comma-split of any string gives back that string. |
| Serialization.SplitJoin | lambda_randomtweets.py:25-30 | Splitting the comma-join of a non-empty list of comma-free strings gives back that list. |
| Serialization.UsedTopics | lambda_headlinestweets.py:19-22 | Loading yields the empty list exactly when the stored value is empty or starts with a comma. Otherwise it yields comma-free topics, the first one non-empty, whose join is the stored value. |
| Serialization.UsedTopicsJoin | lambda_randomtweets.py:23-31 | For comma-free topics, saving and then loading returns the list exactly when the list is empty or its first topic is non-empty. A list whose first topic is empty loads back as the empty list. |
| TopicKey.FirstDelimiter | lambda_randomtweets.py:35-36 | The search result is the index of a delimiter with no delimiter before it. When there is no result, the text holds no delimiter at all. |
| TopicKey.ExtractFirstSentence | lambda_headlinestweets.py:24-29 | The key is a delimiter-free prefix of the text that ends at the first delimiter or at the end of the text. It equals the whole text exactly when the text holds no delimiter. |
| TopicKey.ExtractFirstSentenceUnique | lambda_randomtweets.py:34-39 | Any prefix that is delimiter-free and ends at a delimiter or at the end of the text is the extracted key. |
| History.Recorded | lambda_headlinestweets.py:33-36 | A key already in the list leaves it unchanged. A new key becomes the last element. The length grows by one below the bound and stays the same at or above it. The other entries are the old list with at most its first element dropped, in order. |
| History.RecordedWithinBound | lambda_randomtweets.py:44-46 | A list of at most `bound` topics still has at most `bound` after recording. |
| History.RecordedEvictsOldest | lambda_headlinestweets.py:34-36 | A new key on a list at or over the bound gives the old list minus its first element, plus the key. The length is kept, so an over-long list is not trimmed to the bound. |
| History.RecordedAppends | lambda_randomtweets.py:44-46 | A new key on a list below the bound is appended and nothing is removed. |
| History.RecordedIdempotent | lambda_randomtweets.py:43-46 | Recording the same key twice gives the same list as recording it once. |
| History.RecordedDistinct | lambda_headlinestweets.py:33-34 | Recording keeps a duplicate-free list duplicate-free. |
| History.RecordedSeparatorFree | lambda_randomtweets.py:44-46 | Recording a comma-free key keeps a list of comma-free topics comma-free. |
| History.Step | lambda_headlinestweets.py:32-38 | The list becomes the recorded list. The state is unchanged (nothing is written) exactly when the key was already present. After a write, the stored value is the comma-join of the new list. |
| History.StepIdempotent | lambda_randomtweets.py:42-47 | Recording the same key twice leaves the list and the stored value as recording it once. |
| History.Observed | lambda_randomtweets.py:75-77 | The call-site guard on the list and the store. Empty text changes nothing. Otherwise, either nothing changes or the store holds the join of the new list. The list never gets shorter, a list within the bound stays within it, and a duplicate-free list stays duplicate-free. The same guard in the headlines bot is lambda_headlinestweets.py:86-88. |
| History.HistoryNeverShrinks | lambda_headlinestweets.py:19-38 | For either variant, after one invocation the next load returns the empty list or a list at least as long as the one this invocation loaded. |
| History.TopicHistory.Open | lambda_randomtweets.py:23-26 | An invocation starts with the stored value and the list loaded from it. |
| History.TopicHistory.Save | lambda_randomtweets.py:29-31 | The stored value becomes the comma-join of the list, and the list is unchanged. |
| History.TopicHistory.Record | lambda_randomtweets.py:42-47 | The new list and stored value are those of `Step`. A present key changes neither of them. A new key ends up last and is followed by a write of the join. A list within the bound stays within it. |
| History.TopicHistory.Observe | lambda_randomtweets.py:75-77 | An empty generated text changes neither the list nor the store. Otherwise the list records the key extracted with the variant's delimiters. The same call site in the headlines bot is lambda_headlinestweets.py:86-88. |
| Variants.RandomTweetsKeySeparatorFree | lambda_randomtweets.py:35 | Under the random-facts delimiters a key never contains a comma. |
| Variants.HeadlinesKeyKeepsComma | lambda_headlinestweets.py:25-28 | Under the headlines delimiters, "Hello, world!" gives the key "Hello, world", because comma is not a delimiter there. |
| Variants.RandomTweetsKeyStopsAtComma | lambda_randomtweets.py:35-38 | Under the random-facts delimiters, "Hello, world!" gives the key "Hello". |
| Variants.HeadlinesCommaKeyReloadsAsTwo | lambda_headlinestweets.py:19-38 | On an empty headlines history, "Hello, world!" is recorded as the single topic "Hello, world". The next load reads it back as two topics, "Hello" and " world". |
| Variants.RandomTweetsHistoryRoundTrip | lambda_randomtweets.py:23-47 | After a random-facts invocation loads the store and observes any text, the next load returns exactly the recorded list. The one exception is a list that starts with an empty key, which loads back as the empty list. |
| Variants.RandomTweetsBoundAcrossStore | lambda_randomtweets.py:23-47 | If the list a random-facts invocation loads has at most 10 topics, the list the next invocation loads has at most 10 too. |
| Variants.HeadlinesBoundBreaks | lambda_headlinestweets.py:19-38 | Take a full headlines history of 5 comma-free topics whose second topic is non-empty. Recording a new key of the form x + "," + y, with x and y comma-free, makes the next load return 6 topics. |
| Variants.RandomTweetsDistinctAcrossStore | lambda_randomtweets.py:23-47 | If the list a random-facts invocation loads is duplicate-free, so is the list the next invocation loads. |
| Variants.HeadlinesCommaKey | lambda_headlinestweets.py:24-28 | With a and b free of headlines delimiters, the text "b,a." gives the key "b,a", comma included. |
| Variants.HeadlinesDuplicateOnReload | lambda_headlinestweets.py:19-38 | On the history [a], the headline "b,a." records the distinct list [a, "b,a"]. The next load returns [a, b, a], which repeats a. |
| Variants.MountainsKey | lambda_headlinestweets.py:24-28 | Under the headlines delimiters, "Mountains are tall. They rise." gives the key "Mountains are tall". |
| Variants.FullHistoryScenario | lambda_headlinestweets.py:24-36 | The history ["cats", "dogs", "ocean"] with bound 3 and that text ends as ["dogs", "ocean", "Mountains are tall"]: the oldest topic is evicted and the key comes last. |

Two details of the code that the model keeps:

- Loading maps every stored value whose first comma-separated field is empty
  to the empty list. This includes `""` and also `",a"` (`UsedTopics`).
- Exactly one entry is popped per call. A list that is already over the
  bound therefore keeps its length (`RecordedEvictsOldest`).

## Left out

- Parameter-store reads and writes (`ssm.get_parameter`, `ssm.put_parameter`)
  are I/O. The stored value is a string field. Storage failures are not
  modelled.
- Credential fetches (`get_parameter`) and environment variables are I/O.
- Prompt assembly and the language-model call in both bots are foreign calls.
  The generated text is a parameter of `TopicHistory.Observe`.
- News fetching in the headlines bot (`get_news`) is HTTP.
- Posting to the social platform and the status checks in each
  `lambda_handler` are OAuth/HTTP.
- lambda_wikimediatweets.py and lambda_hourlyprogress.py are not part of this
  model. They are HTTP orchestration, wall-clock time and float formatting,
  and they do not touch the topic history.
- The generated text is a string. The language-model client can also return
  `None`, which the source skips just like the empty string. That case is not
  modelled separately.
- Lost updates between concurrent invocations are not modelled, because the
  model is sequential. The source reads and rewrites the history without
  locking.
