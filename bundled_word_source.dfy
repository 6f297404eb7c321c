/**
 * The app's word picker: random words from the bundled list, without repeats
 * until every word has been shown once.
 */
module WordSource {
  import opened Common
  import opened Words

  /** The set of ids of `words`. */
  function IdSet(words: seq<WordEntry>): (ids: set<string>)
    ensures forall w :: w in words ==> w.id in ids
    ensures forall x :: x in ids ==> exists w :: w in words && w.id == x
  {
    if words == [] then {} else {words[0].id} + IdSet(words[1..])
  }

  /** With distinct ids there are exactly as many ids as words. */
  lemma {:induction false} IdSetSize(words: seq<WordEntry>)
    requires UniqueIds(words)
    ensures |IdSet(words)| == |words|
  {
    if words != [] {
      var rest := words[1..];
      IdSetSize(rest);
    }
  }

  lemma {:induction false} IdSetAppend(words: seq<WordEntry>, w: WordEntry)
    ensures IdSet(words + [w]) == IdSet(words) + {w.id}
  {
    if words != [] {
      assert (words + [w])[1..] == words[1..] + [w];
      IdSetAppend(words[1..], w);
    } else {
      assert words + [w] == [w];
    }
  }

  /** A subset at least as large as its superset is the whole superset. */
  lemma SubsetOfSameSize(a: set<string>, b: set<string>)
    requires a <= b && |a| >= |b|
    ensures a == b
  {
    assert |b - a| == |b| - |a|;
  }

  class BundledWordSource {
    const allWords: seq<WordEntry>
    var seenIDs: set<string>

    /** The caller's `loader` has already produced `allWords`; its failure is not part of this model. */
    constructor (allWords: seq<WordEntry>, seenIDs: set<string> := {})
      ensures this.allWords == allWords && this.seenIDs == seenIDs
    {
      this.allWords := allWords;
      this.seenIDs := seenIDs;
    }

    /** Word ids are unique and only ids of bundled words are recorded as seen. */
    ghost predicate Valid()
      reads this
    {
      UniqueIds(allWords) && seenIDs <= IdSet(allWords)
    }

    /**
     * `nextWord()`: none for an empty list; otherwise a word not seen since the
     * last reset, which is then recorded. The seen set is reset when it is as
     * large as the list, and again (returning any word, unrecorded) when no
     * unseen word is left.
     */
    method NextWord() returns (next: Option<WordEntry>)
      modifies this
      ensures next.None? <==> allWords == []
      ensures next.None? ==> seenIDs == old(seenIDs)
      ensures next.Some? ==> next.value in allWords
      ensures var base := if |old(seenIDs)| >= |allWords| then {} else old(seenIDs);
        next.Some? ==>
          if exists w :: w in allWords && w.id !in base then
            next.value.id !in base && seenIDs == base + {next.value.id}
          else
            seenIDs == {}
      ensures old(Valid()) ==> Valid()
      ensures old(Valid()) && allWords != [] ==>
        var base := if old(seenIDs) == IdSet(allWords) then {} else old(seenIDs);
        next.value.id !in base && seenIDs == base + {next.value.id}
    {
      if allWords == [] {
        return None;
      }

      ghost var wasValid := Valid();
      if |seenIDs| >= |allWords| {
        if wasValid {
          IdSetSize(allWords);
          SubsetOfSameSize(seenIDs, IdSet(allWords));
        }
        seenIDs := {};
      } else if wasValid {
        IdSetSize(allWords);
        assert seenIDs != IdSet(allWords);
      }

      var candidates := FilterUnseen(allWords, seenIDs);
      if candidates == [] {
        if wasValid {
          assert false;
        }
        seenIDs := {};
        assert allWords[0] in allWords;
        var any :| any in allWords;
        return Some(any);
      }

      assert candidates[0] in candidates;
      var chosen :| chosen in candidates;
      seenIDs := seenIDs + {chosen.id};
      return Some(chosen);
    }
  }

  /** `filter { !seenIDs.contains($0.id) }`. */
  function FilterUnseen(words: seq<WordEntry>, seen: set<string>): (r: seq<WordEntry>)
    ensures forall w :: w in r <==> w in words && w.id !in seen
  {
    if words == [] then []
    else if words[0].id in seen then FilterUnseen(words[1..], seen)
    else [words[0]] + FilterUnseen(words[1..], seen)
  }

  /** One more word, new to the round, keeps the round's ids unique and counted. */
  lemma RoundStep(shown: seq<WordEntry>, before: set<string>, w: WordEntry, after: set<string>)
    requires UniqueIds(shown) && before == IdSet(shown) && |before| == |shown|
    requires w.id !in before && after == before + {w.id}
    ensures UniqueIds(shown + [w]) && after == IdSet(shown + [w]) && |after| == |shown| + 1
  {
    IdSetAppend(shown, w);
    var next := shown + [w];
    forall i, j | 0 <= i < j < |next|
      ensures next[i].id != next[j].id
    {
      assert next[i] == shown[i];
      if j < |shown| {
        assert next[j] == shown[j];
      } else {
        assert shown[i] in shown;
      }
    }
  }

  /**
   * Starting from nothing seen, as many calls as there are words return every
   * word once: no id comes back before all have been returned.
   */
  method FirstRound(source: BundledWordSource) returns (shown: seq<WordEntry>)
    requires source.Valid() && source.seenIDs == {}
    modifies source
    ensures |shown| == |source.allWords|
    ensures UniqueIds(shown)
    ensures forall w :: w in shown ==> w in source.allWords
    ensures forall w :: w in source.allWords ==> w in shown
    ensures source.seenIDs == IdSet(source.allWords)
  {
    shown := [];
    while |shown| < |source.allWords|
      invariant source.Valid()
      invariant source.seenIDs == IdSet(shown)
      invariant |shown| <= |source.allWords|
      invariant |source.seenIDs| == |shown|
      invariant UniqueIds(shown)
      invariant forall w :: w in shown ==> w in source.allWords
      decreases |source.allWords| - |shown|
    {
      IdSetSize(source.allWords);
      assert source.seenIDs != IdSet(source.allWords);
      ghost var before := source.seenIDs;
      var next := source.NextWord();
      RoundStep(shown, before, next.value, source.seenIDs);
      shown := shown + [next.value];
    }
    IdSetSize(source.allWords);
    SubsetOfSameSize(source.seenIDs, IdSet(source.allWords));
    forall w | w in source.allWords
      ensures w in shown
    {
      assert w.id in IdSet(shown);
      var s :| s in shown && s.id == w.id;
      assert s == w;
    }
  }
}
