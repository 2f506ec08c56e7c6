// The integer part of TrainModelThread: the sentence buffer, its refill
// from the stream of vocabulary ids, the random window shrink and the
// context positions of each target word.

module Training {
  import opened TrainingSpec

  /** The context positions of target position p (word2vec.c:623-627; the
      output loop at :664 runs over the same a): a runs over [b, 2*window+1-b) except
      window itself, c = p - window + a, and positions outside the sentence
      are skipped. The result is every position InWindow, in increasing
      order. */
  method ContextPositions(p: nat, len: nat, window: nat, b: nat) returns (cs: seq<nat>)
    requires b < window
    ensures forall c :: c in cs <==> InWindow(p, len, window, b, c)
    ensures forall j, k :: 0 <= j < k < |cs| ==> cs[j] < cs[k]
  {
    cs := [];
    var a := b;
    while a < window * 2 + 1 - b
      invariant b <= a <= window * 2 + 1 - b
      invariant forall c :: c in cs <==> InWindow(p, len, window, b, c) && c < p - window + a
      invariant forall j, k :: 0 <= j < k < |cs| ==> cs[j] < cs[k]
      invariant forall j :: 0 <= j < |cs| ==> cs[j] < p - window + a
    {
      if a != window {
        var c := p - window + a;
        if c < 0 {
        } else if c >= len {
        } else {
          cs := cs + [c];
        }
      }
      a := a + 1;
    }
  }

  /** The refill loop itself (word2vec.c:577-599), filling the buffer
      from stream position i0: it computes exactly what Fill describes. */
  method FillBuffer(sen: array<int>, ids: seq<int>, i0: nat, random0: nat, count0: nat,
                    sample: bool, keep: (int, nat) -> bool)
    returns (length: nat, i: nat, random: nat, count: nat, eof: bool)
    requires i0 <= |ids| && sen.Length > MAX_SENTENCE_LENGTH
    modifies sen
    ensures var r := Fill(ids, i0, random0, count0, sample, keep, []);
            length == |r.sentence| && sen[..length] == r.sentence && i == r.next &&
            random == r.random && count == r.count && eof == r.eof
  {
    ghost var r := Fill(ids, i0, random0, count0, sample, keep, []);
    i, random, count, length := i0, random0, count0, 0;
    while true
      invariant i <= |ids| && length < MAX_SENTENCE_LENGTH
      invariant Fill(ids, i, random, count, sample, keep, sen[..length]) == r
      decreases |ids| - i
    {
      if i == |ids| {
        eof := true;
        break;
      }
      var word := ids[i];
      i := i + 1;
      if word == -1 {
        continue;
      }
      count := count + 1;
      if word == 0 {
        eof := false;
        break;
      }
      if sample {
        random := Lcg(random);
        if !keep(word, random % 65536) {
          continue;
        }
      }
      ghost var acc := sen[..length];
      sen[length] := word;
      length := length + 1;
      assert sen[..length] == acc + [word];
      if length >= MAX_SENTENCE_LENGTH {
        eof := false;
        break;
      }
    }
  }

  lemma AppendAssoc(a: seq<int>, b: seq<int>, c: seq<int>)
    ensures (a + b) + c == a + (b + c)
  {
  }

  /** One training thread's integer state (word2vec.c:536-541): the
      sentence buffer sen with its length and position, the generator, the
      word counter, and its input, the ids ReadWordIndex hands back in
      order, read up to `next`. */
  class TrainingThread {
    const ids: seq<int>
    const vocabSize: nat
    const window: nat
    const sample: bool
    const keep: (int, nat) -> bool
    const limit: nat
    const sen: array<int>
    var next: nat
    var sentenceLength: nat
    var sentencePosition: nat
    var nextRandom: nat
    var wordCount: nat

    ghost predicate Valid()
      reads this, sen
    {
      sen.Length == MAX_SENTENCE_LENGTH + 1 && next <= |ids| && window >= 1 &&
      ValidStream(ids, vocabSize) &&
      sentenceLength <= MAX_SENTENCE_LENGTH &&
      (sentenceLength != 0 ==> sentencePosition < sentenceLength) &&
      forall k :: 0 <= k < sentenceLength ==> 1 <= sen[k] < vocabSize
    }

    /** A thread with generator seed `id` (next_random = id) and nothing
        read yet. */
    constructor (ids: seq<int>, vocabSize: nat, window: nat, sample: bool, keep: (int, nat) -> bool,
                 limit: nat, id: nat)
      requires ValidStream(ids, vocabSize) && window >= 1
      ensures Valid() && fresh(sen)
      ensures this.ids == ids && this.vocabSize == vocabSize && this.window == window &&
              this.sample == sample && this.keep == keep && this.limit == limit
      ensures next == 0 && sentenceLength == 0 && sentencePosition == 0 && nextRandom == id && wordCount == 0
    {
      this.ids := ids;
      this.vocabSize := vocabSize;
      this.window := window;
      this.sample := sample;
      this.keep := keep;
      this.limit := limit;
      sen := new int[MAX_SENTENCE_LENGTH + 1];
      next := 0;
      sentenceLength := 0;
      sentencePosition := 0;
      nextRandom := id;
      wordCount := 0;
    }

    /** A refill when the sentence is used up (word2vec.c:576-601): the
        buffer and the state become what Fill describes, so the buffer holds
        vocabulary words only; unless the stream ended or the counter passed
        the limit, what is left to train on is unchanged, and otherwise
        nothing was left. */
    method FillSentence() returns (eof: bool)
      requires Valid() && sentenceLength == 0
      modifies this, sen
      ensures Valid()
      ensures var r := Fill(ids, old(next), old(nextRandom), old(wordCount), sample, keep, []);
              sen[..sentenceLength] == r.sentence && next == r.next && nextRandom == r.random &&
              wordCount == r.count && eof == r.eof
      ensures sentencePosition == 0
      ensures !eof && wordCount <= limit ==> Pending() == old(Pending())
      ensures eof || wordCount > limit ==> old(Pending()) == []
    {
      ghost var i0, random0, count0 := next, nextRandom, wordCount;
      ghost var r := Fill(ids, i0, random0, count0, sample, keep, []);
      RestEmpty(ids, i0, random0, count0, limit, sample, keep);
      var length, i, random, count;
      length, i, random, count, eof := FillBuffer(sen, ids, next, nextRandom, wordCount, sample, keep);
      next, nextRandom, wordCount := i, random, count;
      sentenceLength, sentencePosition := length, 0;
      FillValid(ids, vocabSize, i0, random0, count0, sample, keep);
      forall k | 0 <= k < length
        ensures 1 <= sen[k] < vocabSize
      {
        assert sen[k] == r.sentence[k];
      }
      RestFill(ids, i0, random0, count0, limit, sample, keep);
    }

    /** The words still to be trained on: the rest of the buffered
        sentence, then everything later refills yield. */
    ghost function Pending(): seq<int>
      reads this, sen
      requires Valid()
    {
      Rest(ids, sen[..sentenceLength], if sentenceLength == 0 then 0 else sentencePosition,
           next, nextRandom, wordCount, limit, sample, keep)
    }

    /** One target word (word2vec.c:606, 614-618, 671-675): take the word at the
        sentence position, advance the generator, shrink the window by
        b = next_random % window, list the context positions, and move on,
        marking the sentence used up after its last word. */
    method TrainWord() returns (word: int, b: nat, contexts: seq<nat>)
      requires Valid() && sentenceLength != 0
      modifies this
      ensures Valid()
      ensures word == sen[old(sentencePosition)] && 1 <= word < vocabSize
      ensures nextRandom == Lcg(old(nextRandom)) && b == nextRandom % window && b < window
      ensures forall c :: c in contexts <==> InWindow(old(sentencePosition), old(sentenceLength), window, b, c)
      ensures old(sentencePosition) + 1 < old(sentenceLength) ==>
                sentencePosition == old(sentencePosition) + 1 && sentenceLength == old(sentenceLength)
      ensures old(sentencePosition) + 1 >= old(sentenceLength) ==> sentenceLength == 0
      ensures next == old(next) && wordCount == old(wordCount)
      ensures old(Pending()) == [word] + Pending()
    {
      ghost var s, random := sen[..sentenceLength], nextRandom;
      RestStep(ids, s, sentencePosition, next, random, wordCount, limit, sample, keep);
      var p, length := sentencePosition, sentenceLength;
      word := sen[p];
      nextRandom := Lcg(nextRandom);
      b := nextRandom % window;
      contexts := ContextPositions(p, length, window, b);
      sentencePosition := p + 1;
      if p + 1 >= length {
        sentenceLength := 0;
        RestEmpty(ids, next, nextRandom, wordCount, limit, sample, keep);
        RestEnd(ids, s, next, nextRandom, wordCount, limit, sample, keep);
      } else {
        assert sen[..sentenceLength] == s;
      }
    }

    /** The thread's main loop (word2vec.c:556-676) on its integer state:
        refill when the sentence is used up, stop at the end of the stream
        or once the word counter passes the thread's share, skip an empty
        refill, otherwise train the next word. The words trained are exactly
        those Trained lists. */
    method Run() returns (trained: seq<int>)
      requires Valid() && sentenceLength == 0
      modifies this, sen
      ensures trained == Trained(ids, old(next), old(nextRandom), old(wordCount), limit, sample, keep)
      ensures forall k :: 0 <= k < |trained| ==> 1 <= trained[k] < vocabSize
    {
      ghost var i0, random0, count0 := next, nextRandom, wordCount;
      ghost var all := Trained(ids, next, nextRandom, wordCount, limit, sample, keep);
      RestEmpty(ids, next, nextRandom, wordCount, limit, sample, keep);
      trained := [];
      while true
        invariant Valid()
        invariant trained + Pending() == all
        invariant sentenceLength != 0 ==> wordCount <= limit
        decreases |ids| - next, if sentenceLength == 0 then 0 else sentenceLength - sentencePosition
      {
        if sentenceLength == 0 {
          var eof := FillSentence();
          if eof {
            break;
          }
          if wordCount > limit {
            break;
          }
          if sentenceLength == 0 {
            continue;
          }
        }
        ghost var before := trained;
        var word, b, contexts := TrainWord();
        trained := trained + [word];
        AppendAssoc(before, [word], Pending());
      }
      assert trained == all;
      TrainedValid(ids, vocabSize, i0, random0, count0, limit, sample, keep);
      forall k | 0 <= k < |trained|
        ensures 1 <= trained[k] < vocabSize
      {
        assert all[k] in all;
      }
    }
  }
}
