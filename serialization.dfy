/**
  The storage format of the topic history. The parameter store holds one
  string: the comma-join of the topic list. Loading splits that string on
  commas, as Python's `str.split(',')` does, and reads a first field that is
  empty as "no history at all".
 */
module Serialization {

  const Separator: char := ','

  /** No character of `s` is the separator. */
  predicate SeparatorFree(s: string) {
    forall i :: 0 <= i < |s| ==> s[i] != Separator
  }

  /** Every element of `xs` is separator-free. */
  predicate AllSeparatorFree(xs: seq<string>) {
    forall k :: 0 <= k < |xs| ==> SeparatorFree(xs[k])
  }

  /** The number of separators in `s`. */
  function SeparatorCount(s: string): nat {
    if s == [] then 0 else (if s[0] == Separator then 1 else 0) + SeparatorCount(s[1..])
  }

  /**
    Python's `s.split(',')`: the maximal separator-free pieces of `s`, in order.
    There is always at least one field; the empty string gives `[""]`.
   */
  function Split(s: string): (fields: seq<string>)
    ensures |fields| == SeparatorCount(s) + 1
    ensures AllSeparatorFree(fields)
    ensures fields[0] == "" <==> s == "" || s[0] == Separator
  {
    if s == [] then [""]
    else
      var rest := Split(s[1..]);
      if s[0] == Separator then [""] + rest
      else
        var first := [s[0]] + rest[0];
        assert SeparatorFree(first) by {
          forall i | 0 <= i < |first| ensures first[i] != Separator {
            if i > 0 { assert first[i] == rest[0][i - 1]; }
          }
        }
        [first] + rest[1..]
  }

  /** Separators of a concatenation are those of its parts. */
  lemma {:induction false} SeparatorCountConcat(a: string, b: string)
    ensures SeparatorCount(a + b) == SeparatorCount(a) + SeparatorCount(b)
  {
    if a == [] {
      assert a + b == b;
    } else {
      assert (a + b)[1..] == a[1..] + b;
      SeparatorCountConcat(a[1..], b);
    }
  }

  /** A string is separator-free exactly when it holds no separator. */
  lemma {:induction false} SeparatorCountFree(x: string)
    ensures SeparatorCount(x) == 0 <==> SeparatorFree(x)
  {
    if x != [] {
      SeparatorCountFree(x[1..]);
      assert SeparatorFree(x[1..]) ==> SeparatorFree(x) || x[0] == Separator by {
        if SeparatorFree(x[1..]) && x[0] != Separator {
          forall i | 0 <= i < |x| ensures x[i] != Separator {
            if i > 0 { assert x[i] == x[1..][i - 1]; }
          }
        }
      }
    }
  }

  /**
    Python's `','.join(xs)`: one separator between neighbouring elements, so
    at least `|xs| - 1` separators, and exactly that many when no element
    holds one.
   */
  function Join(xs: seq<string>): (s: string)
    ensures xs != [] ==> SeparatorCount(s) >= |xs| - 1
    ensures xs != [] && AllSeparatorFree(xs) ==> SeparatorCount(s) == |xs| - 1
    ensures xs == [] ==> s == ""
  {
    if |xs| == 0 then ""
    else if |xs| == 1 then
      SeparatorCountFree(xs[0]);
      xs[0]
    else
      var rest := Join(xs[1..]);
      SeparatorCountFree(xs[0]);
      SeparatorCountConcat(xs[0] + [Separator], rest);
      SeparatorCountConcat(xs[0], [Separator]);
      xs[0] + [Separator] + rest
  }

  /** A separator-free string is a single field. */
  lemma {:induction false} SplitSingleField(x: string)
    requires SeparatorFree(x)
    ensures Split(x) == [x]
  {
    if x != [] {
      SplitSingleField(x[1..]);
      assert [x[0]] + x[1..] == x;
    }
  }

  /** A separator-free field followed by a separator splits off as one field. */
  lemma {:induction false} SplitAfterField(x: string, t: string)
    requires SeparatorFree(x)
    ensures Split(x + [Separator] + t) == [x] + Split(t)
  {
    if x == [] {
      assert x + [Separator] + t == [Separator] + t;
      assert ([Separator] + t)[1..] == t;
    } else {
      assert (x + [Separator] + t)[1..] == x[1..] + [Separator] + t;
      SplitAfterField(x[1..], t);
      assert [x[0]] + x[1..] == x;
    }
  }

  /** Two separator-free fields around one separator split into exactly those two. */
  lemma SplitTwoFields(a: string, b: string)
    requires SeparatorFree(a) && SeparatorFree(b)
    ensures Split(a + [Separator] + b) == [a, b]
  {
    SplitAfterField(a, b);
    SplitSingleField(b);
  }

  /** Splitting undoes joining for a non-empty list of separator-free strings. */
  lemma {:induction false} SplitJoin(xs: seq<string>)
    requires xs != [] && AllSeparatorFree(xs)
    ensures Split(Join(xs)) == xs
  {
    if |xs| == 1 {
      SplitSingleField(xs[0]);
    } else {
      SplitJoin(xs[1..]);
      SplitAfterField(xs[0], Join(xs[1..]));
      assert [xs[0]] + xs[1..] == xs;
    }
  }

  /** An empty first element joins to a leading separator. */
  lemma {:induction false} JoinEmptyHead(xs: seq<string>)
    requires xs != []
    ensures Join([""] + xs) == [Separator] + Join(xs)
  {
    assert ([""] + xs)[1..] == xs;
  }

  /** A character put in front of the first element goes in front of the join. */
  lemma {:induction false} JoinConsHead(c: char, xs: seq<string>)
    requires xs != []
    ensures Join([[c] + xs[0]] + xs[1..]) == [c] + Join(xs)
  {
    var ys := [[c] + xs[0]] + xs[1..];
    if |xs| == 1 {
      assert ys == [[c] + xs[0]];
    } else {
      assert ys[1..] == xs[1..];
      var tail := Join(xs[1..]);
      assert Join(xs) == xs[0] + [Separator] + tail;
      assert Join(ys) == ([c] + xs[0]) + [Separator] + tail;
    }
  }

  /** Joining undoes splitting, for every string. */
  lemma {:induction false} JoinSplit(s: string)
    ensures Join(Split(s)) == s
  {
    if s != [] {
      JoinSplit(s[1..]);
      var rest := Split(s[1..]);
      assert s == [s[0]] + s[1..];
      if s[0] == Separator {
        assert Split(s) == [""] + rest;
        JoinEmptyHead(rest);
      } else {
        assert Split(s) == [[s[0]] + rest[0]] + rest[1..];
        JoinConsHead(s[0], rest);
      }
    }
  }

  /**
    A last element holding a separator joins to the same string as its two
    halves given as separate elements.
   */
  lemma {:induction false} JoinSplitsLastField(xs: seq<string>, x: string, y: string)
    ensures Join(xs + [x + [Separator] + y]) == Join(xs + [x, y])
  {
    if |xs| > 0 {
      JoinSplitsLastField(xs[1..], x, y);
      assert (xs + [x + [Separator] + y])[1..] == xs[1..] + [x + [Separator] + y];
      assert (xs + [x, y])[1..] == xs[1..] + [x, y];
      if |xs| == 1 {
        assert xs[1..] + [x, y] == [x, y];
        assert Join([x, y]) == x + [Separator] + Join([y]);
      }
    }
  }

  /**
    `get_used_topics` once the store has been read: the comma-split of the
    stored value, or the empty list when its first field is empty.
   */
  function UsedTopics(stored: string): (topics: seq<string>)
    ensures topics == [] <==> stored == "" || stored[0] == Separator
    ensures topics != [] ==> topics[0] != "" && AllSeparatorFree(topics) && Join(topics) == stored
  {
    var fields := Split(stored);
    JoinSplit(stored);
    if fields[0] != "" then fields else []
  }

  /**
    Writing a list of separator-free topics and reading it back gives the list
    exactly when it is empty or its first topic is non-empty; a list whose
    first topic is empty reads back as no history at all.
   */
  lemma {:induction false} UsedTopicsJoin(xs: seq<string>)
    requires AllSeparatorFree(xs)
    ensures UsedTopics(Join(xs)) == xs <==> xs == [] || xs[0] != ""
    ensures xs != [] && xs[0] == "" ==> UsedTopics(Join(xs)) == []
  {
    if xs != [] {
      SplitJoin(xs);
    }
  }
}
