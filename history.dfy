/**
  The recent-topics history: a short list of topic keys, oldest first, kept
  in a parameter store as one comma-joined string. One invocation loads it,
  derives a key from the generated post, and records that key (append, evict
  the single oldest entry once the bound is exceeded, write back), unless
  the key is already present or the post is empty.
 */
module History {
  import opened Serialization
  import opened TopicKey

  /** The history bound; the deployed variants use 5 and 10. */
  type Bound = n: nat | n > 0 witness 1

  /** One deployment of the bot: the characters that end a topic key, and the history bound. */
  datatype Variant = Variant(delimiters: set<char>, bound: Bound)

  /** The in-memory topic list and the value held by the parameter store. */
  datatype State = State(topics: seq<string>, stored: string)

  /** No topic occurs twice. */
  predicate Distinct(topics: seq<string>) {
    forall i, j :: 0 <= i < j < |topics| ==> topics[i] != topics[j]
  }

  /**
    The list after recording `key`: unchanged when the key is present;
    otherwise the key is appended and, if that makes the list longer than
    `bound`, exactly the first (oldest) entry is dropped.
   */
  function Recorded(topics: seq<string>, key: string, bound: Bound): (r: seq<string>)
    ensures key in topics ==> r == topics
    ensures key !in topics ==> |r| > 0 && r[|r| - 1] == key
    ensures key !in topics ==> |r| == if |topics| < bound then |topics| + 1 else |topics|
    ensures key !in topics ==> r[..|r| - 1] == topics[|topics| + 1 - |r|..]
  {
    if key in topics then topics
    else
      var appended := topics + [key];
      if |appended| > bound then appended[1..] else appended
  }

  /** Recording never takes a list within the bound beyond it. */
  lemma RecordedWithinBound(topics: seq<string>, key: string, bound: Bound)
    requires |topics| <= bound
    ensures |Recorded(topics, key, bound)| <= bound
  {
  }

  /**
    A new key on a list at or over the bound evicts the oldest entry and keeps
    the length: a list longer than the bound is not trimmed down to it.
   */
  lemma RecordedEvictsOldest(topics: seq<string>, key: string, bound: Bound)
    requires |topics| >= bound && key !in topics
    ensures Recorded(topics, key, bound) == topics[1..] + [key]
    ensures |Recorded(topics, key, bound)| == |topics|
  {
  }

  /** A new key on a list below the bound is appended and nothing is evicted. */
  lemma RecordedAppends(topics: seq<string>, key: string, bound: Bound)
    requires |topics| < bound && key !in topics
    ensures Recorded(topics, key, bound) == topics + [key]
  {
  }

  /** Recording the same key a second time changes nothing. */
  lemma RecordedIdempotent(topics: seq<string>, key: string, bound: Bound)
    ensures Recorded(Recorded(topics, key, bound), key, bound) == Recorded(topics, key, bound)
  {
  }

  /** Recording keeps a duplicate-free list duplicate-free. */
  lemma RecordedDistinct(topics: seq<string>, key: string, bound: Bound)
    requires Distinct(topics)
    ensures Distinct(Recorded(topics, key, bound))
  {
  }

  /** Recording a separator-free key keeps a separator-free list separator-free. */
  lemma RecordedSeparatorFree(topics: seq<string>, key: string, bound: Bound)
    requires AllSeparatorFree(topics) && SeparatorFree(key)
    ensures AllSeparatorFree(Recorded(topics, key, bound))
  {
  }

  /**
    `manage_used_topics` on the list and the store: a present key changes
    neither; a new key updates the list and overwrites the store with the
    comma-join of the updated list.
   */
  function Step(s: State, key: string, bound: Bound): (t: State)
    ensures t.topics == Recorded(s.topics, key, bound)
    ensures t == s <==> key in s.topics
    ensures key !in s.topics ==> t.stored == Join(t.topics)
  {
    if key in s.topics then s
    else
      var topics := Recorded(s.topics, key, bound);
      State(topics, Join(topics))
  }

  /** Recording the same key twice leaves the list and the store as recording it once. */
  lemma StepIdempotent(s: State, key: string, bound: Bound)
    ensures Step(Step(s, key, bound), key, bound) == Step(s, key, bound)
  {
  }

  /**
    The call site: only a non-empty generated text updates the history, with
    the key extracted under the variant's delimiters and bound.
   */
  function Observed(s: State, text: string, v: Variant): (t: State)
    ensures text == "" ==> t == s
    ensures t == s || t.stored == Join(t.topics)
    ensures |t.topics| >= |s.topics|
    ensures |s.topics| <= v.bound ==> |t.topics| <= v.bound
    ensures Distinct(s.topics) ==> Distinct(t.topics)
  {
    if text == "" then s
    else
      var key := ExtractFirstSentence(text, v.delimiters);
      assert Distinct(s.topics) ==> Distinct(Recorded(s.topics, key, v.bound)) by {
        if Distinct(s.topics) {
          RecordedDistinct(s.topics, key, v.bound);
        }
      }
      Step(s, key, v.bound)
  }

  /**
    Across the store, for either variant: the list the next invocation loads
    is empty, or at least as long as the list this invocation loaded. Once a
    history has grown past its bound, it only returns within it by being
    read back as empty.
   */
  lemma {:induction false} HistoryNeverShrinks(value: string, text: string, v: Variant)
    ensures var next := UsedTopics(Observed(State(UsedTopics(value), value), text, v).stored);
      next == [] || |next| >= |UsedTopics(value)|
  {
    var s := State(UsedTopics(value), value);
    var t := Observed(s, text, v);
    if t != s && t.topics != [] {
      var fields := Split(t.stored);
      assert |fields| >= |t.topics|;
    }
  }

  /**
    The history of one invocation: `topics` is the list it loaded and
    mutates in place, `stored` the parameter-store value.
   */
  class TopicHistory {
    const delimiters: set<char>
    const bound: Bound
    var topics: seq<string>
    var stored: string

    function Snapshot(): State
      reads this
    {
      State(topics, stored)
    }

    /** Start of an invocation: read the stored value and load the list from it (`get_used_topics`). */
    constructor Open(variant: Variant, value: string)
      ensures delimiters == variant.delimiters && bound == variant.bound
      ensures stored == value && topics == UsedTopics(value)
      ensures topics == [] ==> value == "" || value[0] == Separator
    {
      delimiters := variant.delimiters;
      bound := variant.bound;
      stored := value;
      topics := UsedTopics(value);
    }

    /** `save_used_topics`: overwrite the stored value with the comma-join of the list. */
    method Save()
      modifies this
      ensures topics == old(topics) && stored == Join(topics)
    {
      stored := Join(topics);
    }

    /** `manage_used_topics`: append a new key, pop the oldest once over the bound, write back. */
    method Record(newTopic: string)
      modifies this
      ensures Snapshot() == Step(old(Snapshot()), newTopic, bound)
      ensures newTopic in old(topics) ==> topics == old(topics) && stored == old(stored)
      ensures newTopic !in old(topics) ==> topics[|topics| - 1] == newTopic && stored == Join(topics)
      ensures |old(topics)| <= bound ==> |topics| <= bound
    {
      if newTopic !in topics {
        topics := topics + [newTopic];
        if |topics| > bound {
          topics := topics[1..];
        }
        Save();
      }
    }

    /** The call site: record the key of a non-empty generated text, skip an empty one. */
    method Observe(text: string)
      modifies this
      ensures Snapshot() == Observed(old(Snapshot()), text, Variant(delimiters, bound))
      ensures text == "" ==> topics == old(topics) && stored == old(stored)
      ensures text != "" ==> topics == Recorded(old(topics), ExtractFirstSentence(text, delimiters), bound)
    {
      if text != "" {
        var key := ExtractFirstSentence(text, delimiters);
        Record(key);
      }
    }
  }
}
