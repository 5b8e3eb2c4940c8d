/**
  The two deployments of the history: the headlines bot (sentence enders and
  colon, bound 5) and the random-facts bot (the same plus comma, bound 10).
 */
module Variants {
  import opened Serialization
  import opened TopicKey
  import opened History

  /** lambda_headlinestweets.py: keys end at `.`, `!`, `?` or `:`; at most 5 topics. */
  const Headlines: Variant := Variant({'.', '!', '?', ':'}, 5)

  /** lambda_randomtweets.py: keys end at `.`, `!`, `?`, `:` or `,`; at most 10 topics. */
  const RandomTweets: Variant := Variant({'.', '!', '?', ':', ','}, 10)

  /** Under the random-facts delimiters a key never holds a comma. */
  lemma RandomTweetsKeySeparatorFree(text: string)
    ensures SeparatorFree(ExtractFirstSentence(text, RandomTweets.delimiters))
  {
  }

  /** The headlines bot keeps a comma inside the key. */
  lemma HeadlinesKeyKeepsComma()
    ensures ExtractFirstSentence("Hello, world!", Headlines.delimiters) == "Hello, world"
  {
    ExtractFirstSentenceUnique("Hello, world!", Headlines.delimiters, "Hello, world");
  }

  /** The random-facts bot stops the key at the comma. */
  lemma RandomTweetsKeyStopsAtComma()
    ensures ExtractFirstSentence("Hello, world!", RandomTweets.delimiters) == "Hello"
  {
    ExtractFirstSentenceUnique("Hello, world!", RandomTweets.delimiters, "Hello");
  }

  /**
    A headlines key with a comma in it does not survive the store: recorded
    as one topic, it is read back by the next invocation as two.
   */
  lemma HeadlinesCommaKeyReloadsAsTwo()
    ensures Observed(State([], ""), "Hello, world!", Headlines).topics == ["Hello, world"]
    ensures UsedTopics(Observed(State([], ""), "Hello, world!", Headlines).stored) == ["Hello", " world"]
  {
    HeadlinesKeyKeepsComma();
    SplitCommaKey();
  }

  /** The stored value of that history splits into two fields at its comma. */
  lemma SplitCommaKey()
    ensures Split("Hello, world") == ["Hello", " world"]
  {
    var first, rest := "Hello", " world";
    assert "Hello, world" == first + [Separator] + rest;
    SplitTwoFields(first, rest);
  }

  /**
    Across invocations of the random-facts bot: what one invocation leaves in
    the store is read back by the next as exactly the list it recorded, unless
    that list starts with an empty key, which reads back as no history.
   */
  lemma RandomTweetsHistoryRoundTrip(value: string, text: string)
    ensures var t := Observed(State(UsedTopics(value), value), text, RandomTweets);
      t.topics == [] || t.topics[0] != "" ==> UsedTopics(t.stored) == t.topics
    ensures var t := Observed(State(UsedTopics(value), value), text, RandomTweets);
      t.topics != [] && t.topics[0] == "" ==> UsedTopics(t.stored) == []
  {
    var s := State(UsedTopics(value), value);
    var t := Observed(s, text, RandomTweets);
    if t != s {
      var key := ExtractFirstSentence(text, RandomTweets.delimiters);
      RandomTweetsKeySeparatorFree(text);
      RecordedSeparatorFree(s.topics, key, RandomTweets.bound);
      UsedTopicsJoin(t.topics);
    }
  }

  /**
    The random-facts history stays within its bound across the store: if the
    list an invocation loads has at most 10 topics, so does the list the next
    invocation loads.
   */
  lemma RandomTweetsBoundAcrossStore(value: string, text: string)
    requires |UsedTopics(value)| <= RandomTweets.bound
    ensures |UsedTopics(Observed(State(UsedTopics(value), value), text, RandomTweets).stored)|
         <= RandomTweets.bound
  {
    var s := State(UsedTopics(value), value);
    RandomTweetsHistoryRoundTrip(value, text);
    if text != "" {
      RecordedWithinBound(s.topics, ExtractFirstSentence(text, RandomTweets.delimiters), RandomTweets.bound);
    }
  }

  /**
    The headlines history is not bounded by 5 across the store: a new key with
    a comma in it, recorded on a full history, evicts one topic but is read
    back as two, so the next invocation loads 6 topics.
   */
  lemma HeadlinesBoundBreaks(topics: seq<string>, x: string, y: string)
    requires |topics| == Headlines.bound && AllSeparatorFree(topics) && topics[1] != ""
    requires SeparatorFree(x) && SeparatorFree(y) && x + [Separator] + y !in topics
    ensures |UsedTopics(Join(Recorded(topics, x + [Separator] + y, Headlines.bound)))| == Headlines.bound + 1
  {
    var key := x + [Separator] + y;
    RecordedEvictsOldest(topics, key, Headlines.bound);
    JoinSplitsLastField(topics[1..], x, y);
    var reloaded := topics[1..] + [x, y];
    assert AllSeparatorFree(reloaded) by {
      forall k | 0 <= k < |reloaded| ensures SeparatorFree(reloaded[k]) {
        if k < |topics| - 1 { assert reloaded[k] == topics[k + 1]; }
      }
    }
    UsedTopicsJoin(reloaded);
  }

  /**
    The random-facts history stays duplicate-free across the store: a
    duplicate-free list loaded by one invocation leads to a duplicate-free
    list loaded by the next.
   */
  lemma RandomTweetsDistinctAcrossStore(value: string, text: string)
    requires Distinct(UsedTopics(value))
    ensures Distinct(UsedTopics(Observed(State(UsedTopics(value), value), text, RandomTweets).stored))
  {
    RandomTweetsHistoryRoundTrip(value, text);
  }

  /** Under the headlines delimiters, the key of "b,a." is "b,a". */
  lemma HeadlinesCommaKey(a: string, b: string)
    requires DelimiterFree(a, Headlines.delimiters) && DelimiterFree(b, Headlines.delimiters)
    ensures ExtractFirstSentence(b + [Separator] + a + ['.'], Headlines.delimiters) == b + [Separator] + a
  {
    var key := b + [Separator] + a;
    var text := key + ['.'];
    assert key == text[..|key|];
    assert DelimiterFree(key, Headlines.delimiters) by {
      forall i | 0 <= i < |key| ensures key[i] !in Headlines.delimiters {
        if i < |b| {
          assert key[i] == b[i];
        } else if i > |b| {
          assert key[i] == a[i - |b| - 1];
        }
      }
    }
    ExtractFirstSentenceUnique(text, Headlines.delimiters, key);
  }

  /**
    The headlines history does not stay duplicate-free across the store. On
    the history `[a]`, a headline starting "b,a." gives the new key "b,a",
    which is recorded as one topic. The next invocation reads that topic back
    as "b" and "a", and loads `[a, b, a]`.
   */
  lemma HeadlinesDuplicateOnReload(a: string, b: string)
    requires a != "" && SeparatorFree(a) && SeparatorFree(b)
    requires DelimiterFree(a, Headlines.delimiters) && DelimiterFree(b, Headlines.delimiters)
    ensures var t := Observed(State([a], a), b + [Separator] + a + ['.'], Headlines);
      t.topics == [a, b + [Separator] + a] && Distinct(t.topics)
    ensures var t := Observed(State([a], a), b + [Separator] + a + ['.'], Headlines);
      UsedTopics(t.stored) == [a, b, a] && !Distinct(UsedTopics(t.stored))
  {
    var key := b + [Separator] + a;
    var text := key + ['.'];
    HeadlinesCommaKey(a, b);
    assert key !in [a] by {
      assert |key| > |a|;
    }
    RecordedAppends([a], key, Headlines.bound);
    var t := Observed(State([a], a), text, Headlines);
    assert t.topics == [a, key];
    JoinSplitsLastField([a], b, a);
    assert [a] + [key] == [a, key] && [a] + [b, a] == [a, b, a];
    assert t.stored == Join([a, b, a]);
    UsedTopicsJoin([a, b, a]);
    var reloaded := UsedTopics(t.stored);
    assert reloaded[0] == reloaded[2];
  }

  /**
    The key of the scenario's text is its first sentence. The text and the key
    come in as parameters fixed by the precondition, not as literals in the
    postcondition: a literal argument makes the verifier unfold the key search
    character by character, which is far more costly.
   */
  lemma MountainsKey(text: string, key: string)
    requires text == "Mountains are tall. They rise." && key == "Mountains are tall"
    ensures ExtractFirstSentence(text, Headlines.delimiters) == key
  {
    assert key == text[..|key|];
    assert DelimiterFree(key, Headlines.delimiters);
    assert text[|key|] in Headlines.delimiters;
    ExtractFirstSentenceUnique(text, Headlines.delimiters, key);
  }

  /**
    A full history of three with a new key: the oldest entry goes and the key
    of the generated text comes last. The text and the key are fixed by the
    precondition for the same reason as in MountainsKey.
   */
  lemma FullHistoryScenario(text: string, key: string)
    requires text == "Mountains are tall. They rise." && key == "Mountains are tall"
    ensures Observed(State(["cats", "dogs", "ocean"], "cats,dogs,ocean"), text,
                     Variant(Headlines.delimiters, 3)).topics
         == ["dogs", "ocean", key]
  {
    var topics := ["cats", "dogs", "ocean"];
    MountainsKey(text, key);
    assert key !in topics;
    RecordedEvictsOldest(topics, key, 3);
    assert topics[1..] + [key] == ["dogs", "ocean", key];
  }
}
