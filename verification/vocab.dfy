// The vocabulary builder: a growable array of entries and the
// open-addressing hash index `vocab_hash` that maps words to entry indices.

module Vocab {
  import opened WordHash
  import opened VocabSpec
  import Tokenizer

  class Vocabulary {
    /** vocab[0 .. vocab_size): the live entries. */
    var vocab: seq<Entry>
    /** vocab_hash: slot -> entry index, -1 for an empty slot. */
    const hash: array<int>
    /** min_reduce: entries counted at most this often are pruned. */
    var minReduce: int
    /** train_words */
    var trainWords: nat
    /** Probe distance of each entry's slot from its home slot. */
    ghost var dist: seq<nat>
    /** The occupied slots. */
    ghost var used: set<int>

    ghost predicate Valid()
      reads this, hash
    {
      Indexed(hash[..], vocab, dist, used, |vocab|) && minReduce >= 1
    }

    /** The start of LearnVocabFromTrainFile: an empty table of `size`
        slots and no entries; min_reduce starts at 1. */
    constructor (size: nat)
      requires size > 0
      ensures Valid() && fresh(hash) && hash.Length == size
      ensures vocab == [] && minReduce == 1 && trainWords == 0
    {
      hash := new int[size];
      vocab, minReduce, trainWords := [], 1, 0;
      new;
      ClearTable();
      EmptyIndexed(hash[..], vocab);
    }

    /** Sets every slot of the table to -1. */
    method ClearTable()
      modifies hash, this`dist, this`used
      ensures forall s :: 0 <= s < hash.Length ==> hash[s] == -1
      ensures dist == [] && used == {}
    {
      var a := 0;
      while a < hash.Length
        invariant 0 <= a <= hash.Length
        invariant forall s :: 0 <= s < a ==> hash[s] == -1
      {
        hash[a] := -1;
        a := a + 1;
      }
      dist, used := [], {};
    }

    /** The probe loop `while (vocab_hash[hash] != -1) hash = (hash + 1) %
        vocab_hash_size;`: from `home`, the first empty slot. It ends because
        slot `e` is empty. */
    method FindEmpty(home: nat, ghost e: nat) returns (h: nat, ghost k: nat)
      requires home < hash.Length && e < hash.Length && hash[e] == -1
      ensures k < hash.Length && h == Probe(home, k, hash.Length) && hash[h] == -1
      ensures forall j :: 0 <= j < k ==> hash[Probe(home, j, hash.Length)] != -1
    {
      var size := hash.Length;
      ghost var de := ProbeReaches(home, e, size);
      h, k := home, 0;
      while hash[h] != -1
        invariant k <= de && h == Probe(home, k, size)
        invariant forall j :: 0 <= j < k ==> hash[Probe(home, j, size)] != -1
        decreases de - k
      {
        assert h != e;
        ProbeInjective(home, k, de, size);
        ProbeNext(home, k, size);
        h := (h + 1) % size;
        k := k + 1;
      }
    }

    /** The insertion shared by AddWordToVocab, SortVocab and ReduceVocab:
        claim for entry i the first empty slot on its probe path. */
    method ClaimSlot(i: nat)
      requires Indexed(hash[..], vocab, dist, used, i) && i < |vocab| && i < hash.Length
      modifies hash, this`dist, this`used
      ensures Indexed(hash[..], vocab, dist, used, i + 1)
      ensures exists s :: 0 <= s < hash.Length && old(hash[s]) == -1 && hash[..] == old(hash[..])[s := i]
    {
      ghost var e := EmptySlotExists(hash[..], vocab, dist, used, i);
      var home := GetWordHash(vocab[i].word, hash.Length);
      var h;
      ghost var k;
      h, k := FindEmpty(home, e);
      ClaimKeepsIndex(hash[..], vocab, dist, used, i, h, k);
      ghost var t := hash[..];
      hash[h] := i;
      assert hash[..] == t[h := i];
      dist := dist + [k];
      used := used + {h};
    }

    /** SearchVocab: probe from the word's home slot until the word or an
        empty slot is found. Probing ends because some slot is empty. */
    method SearchVocab(word: Word) returns (r: int)
      requires Valid() && |vocab| < hash.Length
      ensures -1 <= r < |vocab|
      ensures r >= 0 ==> vocab[r].word == word
      ensures r == -1 <==> !Words(vocab, word)
      ensures Distinct(vocab) ==> r == IndexOf(vocab, word)
    {
      ghost var e := EmptySlotExists(hash[..], vocab, dist, used, |vocab|);
      var size := hash.Length;
      var home := GetWordHash(word, size);
      ghost var de := ProbeReaches(home, e, size);
      var h := home;
      ghost var k := 0;
      while true
        modifies {}
        invariant k <= de && h == Probe(home, k, size)
        invariant forall j :: 0 <= j < |vocab| && vocab[j].word == word ==> k <= dist[j]
        decreases de - k
      {
        ProbeStep(hash[..], vocab, dist, used, word, k);
        if hash[h] == -1 {
          return -1;
        }
        if vocab[hash[h]].word == word {
          if Distinct(vocab) {
            DistinctIndexOf(vocab, hash[h]);
          }
          return hash[h];
        }
        ProbeNext(home, k, size);
        h := (h + 1) % size;
        k := k + 1;
      }
    }

    /** AddWordToVocab: append the word with count 0 and claim one empty
        slot for its index; nothing else changes. */
    method AddWordToVocab(word: Word) returns (idx: int)
      requires Valid() && |vocab| < hash.Length && |word| < Tokenizer.MAX_STRING
      modifies this, hash
      ensures Valid()
      ensures idx == |old(vocab)| && vocab == old(vocab) + [Entry(word, 0)]
      ensures exists s :: 0 <= s < hash.Length && old(hash[s]) == -1 && hash[..] == old(hash[..])[s := idx]
      ensures minReduce == old(minReduce) && trainWords == old(trainWords)
    {
      ghost var before := vocab;
      idx := |vocab|;
      vocab := vocab + [Entry(word, 0)];
      IndexedKeepsWords(hash[..], before, vocab, dist, used, idx);
      ClaimSlot(idx);
    }

    /** Re-inserts entries 0 .. |vocab| - 1 into a cleared table, in index
        order (the rebuild loops of ReduceVocab and SortVocab). */
    method RebuildTable(count: nat)
      requires count <= |vocab| && count <= hash.Length && hash.Length > 0
      modifies hash, this`dist, this`used
      ensures Indexed(hash[..], vocab, dist, used, count)
    {
      ClearTable();
      EmptyIndexed(hash[..], vocab);
      var a := 0;
      while a < count
        invariant 0 <= a <= count
        invariant Indexed(hash[..], vocab, dist, used, a)
      {
        ClaimSlot(a);
        a := a + 1;
      }
    }

    /** The compaction loop of ReduceVocab: entries counted more than
        `threshold` times are copied down over the dropped ones, in order. */
    static method Compact(v: seq<Entry>, threshold: int) returns (r: seq<Entry>)
      ensures r == KeepAbove(v, threshold)
    {
      var buf := v;
      var a, b := 0, 0;
      while a < |buf|
        invariant 0 <= b <= a <= |buf| == |v|
        invariant buf[..b] == KeepAbove(v[..a], threshold)
        invariant forall j :: a <= j < |buf| ==> buf[j] == v[j]
      {
        assert v[..a + 1] == v[..a] + [v[a]];
        KeepAboveAppend(v[..a], v[a], threshold);
        if buf[a].cn > threshold {
          buf := buf[b := Entry(buf[a].word, buf[a].cn)];
          b := b + 1;
        }
        a := a + 1;
      }
      assert v[..a] == v;
      r := buf[..b];
    }

    /** ReduceVocab: keeps the entries counted more than min_reduce times
        in their original order, rebuilds the index over the survivors and
        raises min_reduce by one. Entry 0 (the sentence boundary) is not
        exempt. */
    method ReduceVocab()
      requires Valid()
      modifies this, hash
      ensures Valid()
      ensures vocab == KeepAbove(old(vocab), old(minReduce))
      ensures minReduce == old(minReduce) + 1 && trainWords == old(trainWords)
    {
      IndexedBound(hash[..], vocab, dist, used, |vocab|);
      vocab := Compact(vocab, minReduce);
      RebuildTable(|vocab|);
      minReduce := minReduce + 1;
    }

    /** The loop of SortVocab over the sorted entries: each entry below
        `minCount` shrinks vocab_size, each other one is indexed at its
        position and added to train_words. */
    method IndexFrequent(minCount: int) returns (vocabSize: nat)
      requires Indexed(hash[..], vocab, dist, used, 0) && |vocab| <= hash.Length
      requires |vocab| >= 1 && vocab[0].cn >= minCount && SortedByCount(vocab[1..])
      modifies hash, this`dist, this`used, this`trainWords
      ensures 1 <= vocabSize <= |vocab| && vocab == old(vocab)
      ensures Indexed(hash[..], vocab, dist, used, vocabSize)
      ensures forall j :: 0 <= j < vocabSize ==> vocab[j].cn >= minCount
      ensures forall j :: vocabSize <= j < |vocab| ==> vocab[j].cn < minCount
      ensures trainWords == SumCounts(vocab[..vocabSize])
    {
      ghost var sorted := vocab;
      var size := |vocab|;
      vocabSize := size;
      trainWords := 0;
      ghost var kept := 0;
      var a := 0;
      while a < size
        invariant 0 <= kept <= a <= size == |sorted| <= hash.Length
        invariant vocab == sorted
        invariant vocabSize == size - (a - kept)
        invariant a > 0 ==> kept > 0
        invariant forall j :: 0 <= j < kept ==> sorted[j].cn >= minCount
        invariant forall j :: kept <= j < a ==> sorted[j].cn < minCount
        invariant kept < a ==> forall j :: a <= j < size ==> sorted[j].cn < minCount
        invariant Indexed(hash[..], vocab, dist, used, kept)
        invariant trainWords == SumCounts(sorted[..kept])
      {
        if vocab[a].cn < minCount {
          if a > 0 {
            forall j | a < j < size
              ensures sorted[j].cn <= sorted[a].cn
            {
              SortedTail(sorted, a, j);
            }
          }
          vocabSize := vocabSize - 1;
        } else {
          assert kept == a;
          ClaimSlot(a);
          SumCountsStep(sorted, a);
          trainWords := trainWords + vocab[a].cn;
          kept := kept + 1;
        }
        a := a + 1;
      }
    }

    /** The rest of SortVocab after the ordering step: the table is
        cleared, the entries reaching `minCount` (a prefix, as the entries
        are ordered) are indexed and summed into train_words, and
        vocab_size is cut back to them. */
    method Rehash(minCount: int)
      requires |vocab| >= 1 && vocab[0].cn >= minCount && SortedByCount(vocab[1..])
      requires |vocab| <= hash.Length && minReduce >= 1
      modifies this, hash
      ensures Valid() && 1 <= |vocab| <= |old(vocab)| && vocab == old(vocab)[..|vocab|] && vocab <= old(vocab)
      ensures forall j :: 0 <= j < |vocab| ==> vocab[j].cn >= minCount
      ensures forall j :: 0 <= j < |vocab| ==> old(vocab)[j].cn >= minCount
      ensures forall j :: |vocab| <= j < |old(vocab)| ==> old(vocab)[j].cn < minCount
      ensures trainWords == SumCounts(vocab) && minReduce == old(minReduce)
    {
      ClearTable();
      EmptyIndexed(hash[..], vocab);
      var vocabSize := IndexFrequent(minCount);
      ghost var sorted := vocab;
      IndexedKeepsWords(hash[..], sorted, sorted[..vocabSize], dist, used, vocabSize);
      vocab := vocab[..vocabSize];
    }

    /** SortVocab: keeps entry 0 in place, orders entries 1.. by
        non-increasing count, drops those counted fewer than `minCount`
        times, rebuilds the index over the survivors and recomputes
        train_words as the sum of their counts. The words stay distinct,
        so each is found by SearchVocab at its own position. Entry 0 must
        itself reach `minCount`: otherwise the source shrinks vocab_size
        for it while still indexing later entries at their old positions. */
    method SortVocab(minCount: int)
      requires Valid() && Distinct(vocab) && |vocab| >= 1 && vocab[0].cn >= minCount
      modifies this, hash
      ensures Valid() && Distinct(vocab)
      ensures forall i :: 0 <= i < |vocab| ==> IndexOf(vocab, vocab[i].word) == i
      ensures |vocab| >= 1 && vocab[0] == old(vocab[0])
      ensures SortedByCount(vocab[1..])
      ensures forall i :: 0 <= i < |vocab| ==> vocab[i].cn >= minCount
      ensures forall e :: multiset(vocab[1..])[e] ==
                          if e.cn >= minCount then multiset(old(vocab)[1..])[e] else 0
      ensures trainWords == SumCounts(vocab)
      ensures minReduce == old(minReduce)
    {
      IndexedBound(hash[..], vocab, dist, used, |vocab|);
      SortTailCorrect(vocab);
      ghost var unsorted := vocab;
      vocab := [vocab[0]] + SortByCount(vocab[1..]);
      ghost var sorted := vocab;
      Rehash(minCount);
      SortedCut(unsorted, sorted, vocab, minCount);
      SortedPrefixDistinct(unsorted, vocab);
    }

    /** The body of the vocabulary loop after a word is read: the word's
        count goes up by one, or it is added with count 1; then, if the
        vocabulary holds more than 0.7 of the table size, ReduceVocab runs.
        The load bound and the absence of duplicates are kept. */
    method CountWord(word: Word)
      requires Valid() && Distinct(vocab) && 10 * |vocab| <= 7 * hash.Length
      requires |word| < Tokenizer.MAX_STRING
      modifies this, hash
      ensures Valid() && Distinct(vocab) && 10 * |vocab| <= 7 * hash.Length
      ensures Tally(vocab, minReduce) == CountStep(Tally(old(vocab), old(minReduce)), word, hash.Length)
      ensures trainWords == old(trainWords)
    {
      ghost var t := Tally(vocab, minReduce);
      CountStepKeeps(t, word, hash.Length);
      var i := SearchVocab(word);
      ghost var before := vocab;
      if i == -1 {
        var a := AddWordToVocab(word);
        before := vocab;
        vocab := vocab[a := Entry(vocab[a].word, 1)];
      } else {
        vocab := vocab[i := Entry(vocab[i].word, vocab[i].cn + 1)];
      }
      IndexedKeepsWords(hash[..], before, vocab, dist, used, |vocab|);
      assert vocab == Counted(t.vocab, word);
      if 10 * |vocab| > 7 * hash.Length {
        ReduceVocab();
      }
    }

    /** One pass of the vocabulary loop: read a word from `pos`; at end of
        file nothing changes, otherwise train_words goes up by one and the
        word is counted. */
    method ReadAndCount(data: seq<byte>, pos: nat) returns (next: nat, eof: bool)
      requires pos <= |data|
      requires Valid() && Distinct(vocab) && 10 * |vocab| <= 7 * hash.Length
      modifies this, hash
      ensures Valid() && Distinct(vocab) && 10 * |vocab| <= 7 * hash.Length
      ensures eof ==> Tokenizer.Tokens(data, pos) == [] &&
                      vocab == old(vocab) && minReduce == old(minReduce) && trainWords == old(trainWords)
      ensures !eof ==> pos < next <= |data| &&
                       Tokenizer.Tokens(data, pos) != [] &&
                       Tokenizer.Tokens(data, pos)[1..] == Tokenizer.Tokens(data, next) &&
                       Tally(vocab, minReduce) ==
                       CountStep(Tally(old(vocab), old(minReduce)), Tokenizer.Tokens(data, pos)[0], hash.Length) &&
                       trainWords == old(trainWords) + 1
    {
      var word;
      word, next, eof := Tokenizer.ReadWord(data, pos);
      if eof {
        return;
      }
      Tokenizer.ScanAdvances(data, pos, []);
      ghost var rest := Tokenizer.Tokens(data, pos);
      assert rest == [word] + Tokenizer.Tokens(data, next);
      assert |rest[0]| <= Tokenizer.MAX_WORD;
      trainWords := trainWords + 1;
      CountWord(word);
    }

    /** The start of LearnVocabFromTrainFile: every slot set to -1, the
        vocabulary emptied and "</s>" added as entry 0 with count 0. */
    method StartVocab()
      requires minReduce >= 1 && hash.Length >= 2
      modifies this, hash
      ensures Valid() && Distinct(vocab) && 10 * |vocab| <= 7 * hash.Length
      ensures vocab == [Entry(Tokenizer.EOS, 0)]
      ensures minReduce == old(minReduce) && trainWords == old(trainWords)
    {
      ClearTable();
      vocab := [];
      EmptyIndexed(hash[..], vocab);
      var first := AddWordToVocab(Tokenizer.EOS);
    }

    /** LearnVocabFromTrainFile up to its closing SortVocab: clears the
        table, adds "</s>" as entry 0 with count 0, then counts every word
        of the file; train_words goes up once per word. */
    method LearnVocabFromTrainFile(data: seq<byte>)
      requires minReduce >= 1 && hash.Length >= 2
      modifies this, hash
      ensures Valid() && Distinct(vocab) && 10 * |vocab| <= 7 * hash.Length
      ensures Tally(vocab, minReduce) ==
              CountAll(Tally([Entry(Tokenizer.EOS, 0)], old(minReduce)), Tokenizer.Tokens(data, 0), hash.Length)
      ensures trainWords == old(trainWords) + |Tokenizer.Tokens(data, 0)|
    {
      StartVocab();
      ghost var all := Tokenizer.Tokens(data, 0);
      ghost var rest := all;
      var p := 0;
      var eof := false;
      while !eof
        invariant p <= |data| && rest == Tokenizer.Tokens(data, p)
        invariant Valid() && Distinct(vocab) && 10 * |vocab| <= 7 * hash.Length
        invariant eof ==> rest == []
        invariant CountAll(Tally(vocab, minReduce), rest, hash.Length) ==
                  CountAll(Tally([Entry(Tokenizer.EOS, 0)], old(minReduce)), all, hash.Length)
        invariant trainWords + |rest| == old(trainWords) + |all|
        decreases |data| - p, !eof
      {
        var next;
        next, eof := ReadAndCount(data, p);
        if !eof {
          rest := rest[1..];
          p := next;
        }
      }
    }

    /** ReadWordIndex: reads one word and looks it up; -1 at end of file
        and for a word not in the vocabulary. */
    method ReadWordIndex(data: seq<byte>, pos: nat) returns (r: int, next: nat)
      requires Valid() && |vocab| < hash.Length && pos <= |data|
      ensures pos <= next <= |data|
      ensures Tokenizer.Read(data, pos).Eof? ==> r == -1
      ensures !Tokenizer.Read(data, pos).Eof? ==>
                var w := Tokenizer.StepWord(Tokenizer.Read(data, pos));
                next == Tokenizer.Read(data, pos).next && -1 <= r < |vocab| &&
                (r >= 0 ==> vocab[r].word == w) && (r == -1 <==> !Words(vocab, w))
    {
      var word, eof;
      word, next, eof := Tokenizer.ReadWord(data, pos);
      if eof {
        return -1, next;
      }
      r := SearchVocab(word);
    }
  }
}
