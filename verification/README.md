# word2vec core: vocabulary, Huffman tree, reader and sentence window

This project models the integer core of `word2vec.c` in Dafny and proves properties of the model. The core has four parts:

- **The vocabulary builder.** It reads the training corpus word by word. A word is a maximal run of bytes other than space, tab and newline, and a bare newline becomes the boundary word `</s>`. Words are counted in a growable vocabulary that an open-addressing hash table (`vocab_hash`) indexes. The vocabulary is pruned when the table is more than 70 % full. At the end it is sorted by decreasing count, with `</s>` kept in front, and words below `min_count` are dropped.
- **The Huffman tree (`CreateBinaryTree`).** It is built over the sorted counts with the classic two-queue merge. Each word gets its binary code and the path of inner nodes (`point`) from the root.
- **One training thread's integer skeleton.** The thread refills its sentence buffer from the stream of vocabulary ids and may subsample. It advances a 64-bit linear congruential generator, shrinks the window at random, and visits the context positions of each target word.

Modules:

- `WordHash` (hash.dfy): the word hash.
- `Tokenizer` (tokenizer.dfy): ReadWord, as a reference function `Read` and as a byte loop.
- `VocabSpec` (vocab_spec.dfy): value-level specification of the vocabulary. It covers probing, the index invariant `Indexed`, pruning, sorting and counting.
- `Vocab` (vocab.dfy): class `Vocabulary`. It holds `vocab` as a sequence of entries and `vocab_hash` as an array. Its methods follow the C functions.
- `HuffmanSpec` (huffman_spec.dfy): the merge as a function on a ghost `Forest` state, its loop invariant `Grown`, and the tree and code lemmas.
- `Huffman` (huffman.dfy): the merge and code-extraction loops over arrays.
- `TrainingSpec` (training_spec.dfy): the refill `Fill`, the words a thread trains on (`Trained`), the context window `InWindow`, and the as-written loop.
- `Training` (training.dfy): class `TrainingThread` with the buffer `sen`, its length and position, `next_random` and `word_count`.

Modelling choices:

- **Byte streams.** The corpus is a byte sequence `data`, read from an offset.
- **Thread input.** A thread's input is the sequence of ids that ReadWordIndex returns before end of file.
- **Integer widths.** `unsigned long long` arithmetic (the hash accumulator, `next_random`) wraps modulo 2^64 explicitly. VocabCompare's `long long` to `int` conversion wraps modulo 2^32.

## Model

| member | source | states |
|---|---|---|
| WordHash.GetWordHash | word2vec-abc/word2vec.c:145-152 | The result is a slot below the table size. It is the base-257 value of the word's signed `char`s, reduced modulo 2^64 and then modulo the size (`Home`). |
| Tokenizer.ReadWord | word2vec-abc/word2vec.c:119-143 | The byte loop agrees with the reference reading `Read`. It sets eof exactly when `Read` reaches end of file. It yields `</s>` for a bare newline, and otherwise the word and the position where the next call starts. |
| Tokenizer.Scan | word2vec-abc/word2vec.c:119-143 | The reference reading from a position with some bytes collected: carriage returns are skipped, bytes past 98 are dropped, a separator ends a non-empty word (a newline is left unread), a bare newline is `</s>`, and end of file is `Eof`. A word extends what was collected, is non-empty, and the next position never goes back. |
| Tokenizer.Read | word2vec-abc/word2vec.c:119-143 | One call from a position with nothing collected. A boundary consumes at least one byte. A word holds 1 to 98 bytes, and the next call starts within the stream. |
| Tokenizer.ScanAdvances | word2vec-abc/word2vec.c:124-141 | A call that delivers a word or a boundary stays inside the stream. A call starting with no bytes collected always consumes at least one byte. |
| Tokenizer.WordsAreClean | word2vec-abc/word2vec.c:124-142 | Every word delivered is non-empty and at most 98 bytes long (truncation at MAX_STRING-2). It holds no space, tab, newline or carriage return. |
| Tokenizer.Steps | word2vec-abc/word2vec.c:344-348 | Reading until end of file yields a sequence of calls none of which is the end-of-file call. |
| Tokenizer.Tokens | word2vec-abc/word2vec.c:344-349 | Every word the vocabulary builder counts is non-empty and at most 98 bytes long. |
| Tokenizer.NewlinesSplit | word2vec-abc/word2vec.c:127-136 | Newline counts add up over adjacent ranges of the stream. |
| Tokenizer.ScanNewlines | word2vec-abc/word2vec.c:126-136 | One call consumes exactly one newline when it yields `</s>` and none when it yields a word. At end of file no newline is left. |
| Tokenizer.EveryNewlineIsOneBoundary | word2vec-abc/word2vec.c:127-136 | Over the whole stream, the number of `</s>` tokens equals the number of newlines. Carriage returns are ignored, and a newline ending a word is pushed back and read again. |
| VocabSpec.Probe | word2vec-abc/word2vec.c:175 | The k-th probe from a home slot, `(hash + 1) % vocab_hash_size` applied k times, is a slot of the table. |
| VocabSpec.ProbeNext | word2vec-abc/word2vec.c:175 | Each probe is the previous one plus one, modulo the size. |
| VocabSpec.ProbeInjective | word2vec-abc/word2vec.c:175 | The first `size` probes visit distinct slots. |
| VocabSpec.ProbeReaches | word2vec-abc/word2vec.c:175 | Every slot is reached by some probe below the size. |
| VocabSpec.IndexedKeepsWords | word2vec-abc/word2vec.c:361 | Changing counts, but not words, keeps the hash index valid. |
| VocabSpec.ClaimKeepsIndex | word2vec-abc/word2vec.c:175-176 | Storing entry i in the first empty slot of its probe sequence extends the index invariant to i+1 entries. |
| VocabSpec.IndexedBound | word2vec-abc/word2vec.c:175-176 | An index over m entries needs m distinct slots, so m is at most the table size. |
| VocabSpec.EmptyIndexed | word2vec-abc/word2vec.c:334 | An all -1 table indexes no entry. |
| VocabSpec.EmptySlotExists | word2vec-abc/word2vec.c:172-175 | While fewer entries are indexed than there are slots, some slot is -1, so the probe loop ends. |
| VocabSpec.KeepAbove | word2vec-abc/word2vec.c:305-314 | Pruning keeps at most the entries it had, and every kept entry has a count above `min_reduce`. |
| VocabSpec.KeepAboveAppend | word2vec-abc/word2vec.c:305-313 | Pruning proceeds entry by entry: an appended entry is kept exactly when its count is above the threshold. |
| VocabSpec.KeepAboveMembers | word2vec-abc/word2vec.c:305-314 | As multisets, the kept entries are exactly the entries with counts above the threshold. |
| VocabSpec.SumCountsStep | word2vec-abc/word2vec.c:224 | `train_words` grows by each kept entry's count. |
| VocabSpec.KeptPrefix | word2vec-abc/word2vec.c:200-232 | In a vocabulary sorted after `</s>`, the kept prefix is exactly the entries with count at least `min_count`. |
| VocabSpec.ToInt32 | word2vec-abc/word2vec.c:182 | The conversion to `int` lands in the 32-bit range and leaves in-range values alone. |
| VocabSpec.VocabCompare | word2vec-abc/word2vec.c:180-183 | The comparator's result is a 32-bit int. |
| VocabSpec.VocabCompareOverflows | word2vec-abc/word2vec.c:182 | As written, counts 0 and 2^31 compare the wrong way round, and counts 0 and 2^32 compare equal. |
| VocabSpec.VocabCompareSmallDifferences | word2vec-abc/word2vec.c:182 | When the difference of counts fits in an int, the comparator orders by decreasing count, in both directions. |
| VocabSpec.CompareCounts | word2vec-abc/word2vec.c:180-183 | The corrected comparator: negative, zero or positive exactly when the first count is larger, equal or smaller. |
| VocabSpec.SortedTail | word2vec-abc/word2vec.c:191 | In a vocabulary sorted after position 0, later entries have smaller or equal counts. |
| VocabSpec.InsertByCountBound | word2vec-abc/word2vec.c:191 | Inserting keeps every count under a common bound. |
| VocabSpec.InsertByCountPerm | word2vec-abc/word2vec.c:191 | Inserting adds exactly the new entry to the multiset. |
| VocabSpec.InsertByCountSorted | word2vec-abc/word2vec.c:191 | Inserting into a sorted vocabulary keeps it sorted. |
| VocabSpec.SortTailCorrect | word2vec-abc/word2vec.c:189-191 | Sorting `vocab[1..]` keeps `</s>` first and the length, and leaves the tail sorted by decreasing count with the same multiset of entries. |
| VocabSpec.SortByCountCorrect | word2vec-abc/word2vec.c:191 | The sort yields a sorted permutation of its input. |
| VocabSpec.CountStep | word2vec-abc/word2vec.c:355-363 | One word of the file: counted (or added), then, when the vocabulary holds more than 0.7 of the table size, pruned at the current `min_reduce`. `min_reduce` stays or grows by exactly one. |
| VocabSpec.CountAll | word2vec-abc/word2vec.c:344-364 | The vocabulary after counting a word sequence in order, one `CountStep` per word. `min_reduce` grows by at most one per word. |
| VocabSpec.IndexOf | word2vec-abc/word2vec.c:287-298 | The reference lookup gives the first position holding the word, or -1 exactly when the word is absent. |
| VocabSpec.Counted | word2vec-abc/word2vec.c:355-361 | After counting, the word is present. The length grows by one exactly when the word was new, and existing words keep their positions. |
| VocabSpec.CountedCounts | word2vec-abc/word2vec.c:355-361 | Counting keeps words distinct, adds one to the counted word and leaves every other count alone. |
| VocabSpec.KeepAboveWords | word2vec-abc/word2vec.c:305-313 | Pruning invents no word. |
| VocabSpec.DistinctKeepAbove | word2vec-abc/word2vec.c:305-313 | Pruning keeps words distinct. |
| VocabSpec.KeepAboveDropsNew | word2vec-abc/word2vec.c:358-363 | A word just added with count 1 never survives pruning, since `min_reduce` is at least 1. |
| VocabSpec.CountStepKeeps | word2vec-abc/word2vec.c:355-363 | Every counting step keeps words distinct, `min_reduce` at least 1, and the load at most 0.7. |
| VocabSpec.CountAllExact | word2vec-abc/word2vec.c:344-364 | When no pruning can happen, counting a word sequence adds to each word's count exactly its number of occurrences, and keeps words distinct. |
| VocabSpec.PruningDropsBoundary | word2vec-abc/word2vec.c:343-363 | Pruning can drop `</s>` (count 0) from position 0, which SortVocab relies on. |
| Vocab.Vocabulary.ClearTable | word2vec-abc/word2vec.c:334 | Every slot becomes -1. |
| Vocab.Vocabulary.FindEmpty | word2vec-abc/word2vec.c:175 | The probe loop returns the first empty slot of the probe sequence. |
| Vocab.Vocabulary.ClaimSlot | word2vec-abc/word2vec.c:175-176 | Entry i is stored in one previously empty slot, and the index invariant extends to i+1. |
| VocabSpec.ProbeStep | word2vec-abc/word2vec.c:289-295 | One probe when the word sits no nearer than distance k: an empty slot proves the word absent, and a slot holding another word proves it sits further along. |
| Vocab.Vocabulary.SearchVocab | word2vec-abc/word2vec.c:287-298 | The result is -1 exactly when the word is absent; otherwise it is the position holding the word. With distinct words it equals the reference `IndexOf`. |
| Vocab.Vocabulary.AddWordToVocab | word2vec-abc/word2vec.c:154-178 | Appends the entry (word, 0), returns its index, and fills exactly one previously empty slot with it. The table stays a valid index. |
| Vocab.Vocabulary.RebuildTable | word2vec-abc/word2vec.c:316-322 | Re-inserting the first `count` entries yields a valid index of them. |
| Vocab.Vocabulary.Compact | word2vec-abc/word2vec.c:305-313 | The in-place compaction loop returns exactly `KeepAbove` of the vocabulary: the entries counted above the threshold, in their original order. |
| Vocab.Vocabulary.ReduceVocab | word2vec-abc/word2vec.c:300-327 | The vocabulary becomes the entries with counts above the old `min_reduce`, in order. The table indexes them, and `min_reduce` grows by one. |
| Vocab.Vocabulary.IndexFrequent | word2vec-abc/word2vec.c:200-232 | Over a sorted vocabulary, it indexes exactly the prefix with count at least `min_count`. `train_words` is the sum of their counts. |
| Vocab.Vocabulary.Rehash | word2vec-abc/word2vec.c:195-232 | The vocabulary becomes the prefix of words counted at least `min_count`; every dropped word was below it. The table indexes the kept words, and `train_words` is their total. |
| Vocab.Vocabulary.SortVocab | word2vec-abc/word2vec.c:185-242 | `</s>` stays first. The rest is sorted by decreasing count, all counts are at least `min_count`, and the kept entries are exactly those counted at least `min_count`. Words stay distinct and each is found by `IndexOf` (so by SearchVocab) at its own position. The table indexes them and `train_words` is their total. |
| Vocab.Vocabulary.CountWord | word2vec-abc/word2vec.c:355-363 | The vocabulary changes exactly as `CountStep` says: count or insert, then prune when over the load factor. Words stay distinct and the load at most 0.7. |
| Vocab.Vocabulary.ReadAndCount | word2vec-abc/word2vec.c:346-363 | One loop iteration: at end of file (no tokens left) nothing changes. Otherwise the first remaining token is counted as `CountStep` says, the position moves past exactly that token, and `train_words` grows by one. |
| Vocab.Vocabulary.StartVocab | word2vec-abc/word2vec.c:334-343 | The table is cleared and the vocabulary is exactly `</s>` with count 0. |
| Vocab.Vocabulary.LearnVocabFromTrainFile | word2vec-abc/word2vec.c:329-364 | The vocabulary is what `CountAll` yields over the file's tokens after `</s>`. `train_words` grows by the number of tokens. |
| Vocab.Vocabulary.ReadWordIndex | word2vec-abc/word2vec.c:491-497 | At end of file the result is -1. Otherwise the word is read and its index is returned: -1 exactly when it is not in the vocabulary. |
| HuffmanSpec.QueueHeads | word2vec-abc/word2vec.c:424-448 | Each queue head's count is at most the total of the waiting nodes. Removing it leaves the total minus its count. |
| HuffmanSpec.PickSmallerFacts | word2vec-abc/word2vec.c:424-435 | One pick takes an untaken node from the head of one queue and moves that queue's pivot. The waiting total drops by its count. With ordered queues, the picked node is no larger than any node still waiting. |
| HuffmanSpec.ChooseFacts | word2vec-abc/word2vec.c:421-448 | Two picks take two distinct waiting nodes, min1i no larger than min2i and min2i no larger than every node still waiting. Exactly these two become taken. |
| HuffmanSpec.QueuesPush | word2vec-abc/word2vec.c:450 | Writing the merged count into the next sentinel slot puts it at the end of the second queue. |
| HuffmanSpec.CountsIntro | word2vec-abc/word2vec.c:400-407 | Leaf counts are copied, unused inner slots hold the sentinel, and the queues hold all counts. |
| HuffmanSpec.StepCounts | word2vec-abc/word2vec.c:450 | After a merge the counts invariant holds for a+1. |
| HuffmanSpec.StepMerged | word2vec-abc/word2vec.c:450-456 | Node n+a becomes the parent of min1i (bit 0) and min2i (bit 1), with the sum of their counts. |
| HuffmanSpec.StepParents | word2vec-abc/word2vec.c:453-454 | Every taken node has an inner parent above it that lists it as first or second child. |
| HuffmanSpec.StepUntouched | word2vec-abc/word2vec.c:453-456 | Nodes never taken keep parent 0 and bit 0, and bits stay 0 or 1. |
| HuffmanSpec.StepOrdering | word2vec-abc/word2vec.c:450 | Merged counts are produced in non-decreasing order. |
| HuffmanSpec.ChosenCounts | word2vec-abc/word2vec.c:421-450 | The counts invariant survives one iteration of the merge loop. |
| HuffmanSpec.ChosenMerged | word2vec-abc/word2vec.c:421-456 | The merge record survives one iteration of the merge loop. |
| HuffmanSpec.ChosenParents | word2vec-abc/word2vec.c:421-454 | The parent invariant survives one iteration of the merge loop. |
| HuffmanSpec.ChosenUntouched | word2vec-abc/word2vec.c:421-456 | The untouched-nodes invariant survives one iteration of the merge loop. |
| HuffmanSpec.ChosenOrdering | word2vec-abc/word2vec.c:421-450 | The ordering invariant survives one iteration of the merge loop. |
| HuffmanSpec.StepBuilding | word2vec-abc/word2vec.c:421-457 | The whole loop invariant survives one iteration. |
| HuffmanSpec.MergeOnce | word2vec-abc/word2vec.c:421-457 | One merge on the loop state: the two nodes `Choose` picks get parent n+a, the second gets bit 1, and node n+a gets their summed count. Only slot n+a of the counts changes, and the record of first and second children grows by one entry each. |
| HuffmanSpec.MergeOnceGrows | word2vec-abc/word2vec.c:421-457 | From any state satisfying the invariant after a merges, one more merge is possible and restores the invariant for a+1. |
| HuffmanSpec.BuildingInit | word2vec-abc/word2vec.c:396-407 | The initial arrays (leaf counts, 1e15 sentinels, zero parents and bits, pos1 = n-1, pos2 = n) satisfy the invariant for 0 merges. |
| HuffmanSpec.DoneParents | word2vec-abc/word2vec.c:421-457 | After n-1 merges every node below the root has an inner parent above it, at most the root 2n-2. |
| HuffmanSpec.DoneBits | word2vec-abc/word2vec.c:456 | Siblings have different bits, and a node's bit is 1 exactly when it is its parent's second child. |
| HuffmanSpec.BuildingDone | word2vec-abc/word2vec.c:421-457 | After the loop the arrays form a tree rooted at 2n-2 with parents above children. With counts sorted decreasingly, inner nodes get non-decreasing counts. |
| HuffmanSpec.MergedTree | word2vec-abc/word2vec.c:421-457 | The final state is a tree and records each inner node's two children. |
| HuffmanSpec.MergedCounts | word2vec-abc/word2vec.c:400-456 | Leaves keep their counts, bit 1 marks exactly the second children, and with decreasing counts the inner counts are non-decreasing. |
| HuffmanSpec.Nodes | word2vec-abc/word2vec.c:469-476 | Every node on a node's path to the root lies between it and the root. |
| HuffmanSpec.CodePath | word2vec-abc/word2vec.c:469-484 | The path has one more node than the code has bits, starts at the root and ends at the node. Each step goes to a child, and that child's bit is the code's bit. |
| HuffmanSpec.InternalDepth | word2vec-abc/word2vec.c:469-476 | A node at index x lies at depth at most 2n-2-x. |
| HuffmanSpec.LeafDepth | word2vec-abc/word2vec.c:477 | Every word's `codelen` is between 1 and n-1. |
| HuffmanSpec.SameCode | word2vec-abc/word2vec.c:469-484 | Distinct nodes have distinct codes. |
| HuffmanSpec.PrefixAncestor | word2vec-abc/word2vec.c:469-484 | A node whose code is a prefix of another's is that node or an inner node. |
| HuffmanSpec.PrefixFree | word2vec-abc/word2vec.c:460-485 | No word's code is a prefix of (or equal to) another word's code. |
| HuffmanSpec.LeafCodes | word2vec-abc/word2vec.c:460-485 | The extracted codes are prefix-free, 1 to n-1 bits long, and each `point` is one longer than its code and starts at n-2. |
| HuffmanSpec.Offsets | word2vec-abc/word2vec.c:483 | Reference definition (its ensures spells out the definition): points are node indices minus vocab_size, element by element. |
| HuffmanSpec.PointOfPath | word2vec-abc/word2vec.c:480-484 | `point` is the root offset n-2 followed by the walked nodes reversed, that is the offsets of the whole path from the root. |
| HuffmanSpec.Reverse | word2vec-abc/word2vec.c:482-483 | Reference definition (its ensures spells out the definition): reversal keeps the length and mirrors positions. |
| HuffmanSpec.ReverseSnoc | word2vec-abc/word2vec.c:470-474 | Reversing after appending one element puts it in front. |
| Huffman.MergeStep | word2vec-abc/word2vec.c:424-456 | One iteration on the arrays produces exactly the state `MergeOnce` describes. |
| HuffmanSpec.AfterMerges | word2vec-abc/word2vec.c:421-457 | The loop state after any number a < n of merges, from the initial arrays, satisfies the invariant `Grown` for a. |
| Huffman.MergeAll | word2vec-abc/word2vec.c:421-457 | After n-1 iterations the arrays hold exactly the state `AfterMerges` gives for n-1 merges, so they satisfy the invariant `Grown`. |
| Huffman.BuildTree | word2vec-abc/word2vec.c:396-457 | The allocation, the count copy, the sentinels and the merge loop leave arrays satisfying `Grown` for n-1 merges. |
| Huffman.WalkUp | word2vec-abc/word2vec.c:469-476 | The collected bits and nodes are the leaf's code and path from the root, reversed. With one word it is a single step. |
| Huffman.StoreReversed | word2vec-abc/word2vec.c:477-484 | The stored code is the collected bits reversed. `point` is n-2 followed by the collected nodes reversed, as offsets. |
| Huffman.ExtractCode | word2vec-abc/word2vec.c:460-485 | A word's code is its root-to-leaf bit path and its point the offsets of the nodes on it. A lone word gets ([0], [-1, -1]). |
| Huffman.ExtractAll | word2vec-abc/word2vec.c:460-485 | Every word gets its code and point as `ExtractCode` states. |
| Huffman.CreateBinaryTree | word2vec-abc/word2vec.c:384-489 | The final arrays satisfy the merge-loop invariant `Grown` after n-1 merges and form a tree rooted at 2n-2. Leaves keep the word counts. Each inner node n+k is the parent of two distinct earlier nodes, bit 0 on the first and bit 1 on the second, and its count is their sum. With counts sorted decreasingly, the inner counts never decrease in creation order. Every word's code is its root-to-leaf bit path and its point the offsets of that path. Codes are prefix-free and 1 to n-1 bits long, each point is one longer and starts at n-2, and a lone word gets ([0], [-1, -1]). That each merge takes the two smallest waiting nodes is stated per iteration by `HuffmanSpec.ChooseFacts` and `Huffman.MergeStep`. |
| TrainingSpec.Lcg | word2vec-abc/word2vec.c:614 | One step of `next_random * 25214903917 + 11` in 64-bit unsigned arithmetic. The result is below 2^64. |
| TrainingSpec.Fill | word2vec-abc/word2vec.c:577-599 | A refill only appends, holds at most 1000 words, and never decreases the counter. On end of file it has consumed the stream. Otherwise it consumed at least one id and stopped at a `</s>` or at a full sentence. |
| TrainingSpec.FillFromStream | word2vec-abc/word2vec.c:577-599 | The words a refill adds come, with multiplicities, from the ids it consumed. |
| TrainingSpec.FillValid | word2vec-abc/word2vec.c:583-596 | A refilled sentence holds only vocabulary ids other than -1 and `</s>`, and at most 1000 of them. |
| TrainingSpec.OccValid | word2vec-abc/word2vec.c:583-586 | The stream words that can enter a sentence are ids between 1 and vocab_size-1. |
| TrainingSpec.Trained | word2vec-abc/word2vec.c:556-676 | The target words of the corrected thread loop: refill, stop at end of file or past the limit, skip an empty refill, otherwise train the sentence's words in order, one generator step each. At most one target per id read. |
| TrainingSpec.TrainedFromStream | word2vec-abc/word2vec.c:556-676 | With empty refills skipped, a thread trains on no word more often than it occurs in its stream. |
| TrainingSpec.TrainedValid | word2vec-abc/word2vec.c:556-676 | Every word a thread trains on is a vocabulary id other than `</s>`. |
| TrainingSpec.RestStep | word2vec-abc/word2vec.c:606-614 | Training one target word consumes the word at the sentence position and one generator step. |
| TrainingSpec.RestEnd | word2vec-abc/word2vec.c:672-673 | A sentence trained to its end leaves what an empty buffer leaves. |
| TrainingSpec.RestFill | word2vec-abc/word2vec.c:576-604 | After a refill the thread stops (nothing left) at end of file or past the word limit. Otherwise the whole new sentence is left to train, then the rest. |
| TrainingSpec.TrainedAsWritten | word2vec-abc/word2vec.c:556-676 | The target words of the loop as written: after an empty refill, the stale `sen[0]` is trained with one generator step, unless it is -1, which the guard at :608 skips without a step. At most one target per id read. |
| TrainingSpec.EmptySentenceRetrains | word2vec-abc/word2vec.c:600-608 | As written, the stream "5 `</s>` `</s>`" trains word 5 twice, more often than it occurs. The corrected loop trains it once. |
| TrainingSpec.FirstEmptySentenceReadsGarbage | word2vec-abc/word2vec.c:576-608 | As written, a thread whose input starts with `</s>` first trains on whatever the uninitialised `sen[0]` holds. For the stream "`</s>` 5 `</s>`", a stale id 3 is trained on although the stream never holds it. Only -1 is caught by the guard at :608, and then just 5 is trained, as in the corrected loop. |
| TrainingSpec.InWindow | word2vec-abc/word2vec.c:623-627 | Reference definition (its ensures spells out the definition): a context position lies inside the sentence, is not the target, and is at most window-b away from it. |
| Training.ContextPositions | word2vec-abc/word2vec.c:623-627 | The context positions visited are exactly the positions inside the sentence, other than the target, at most window-b away. They come in increasing order. |
| Training.FillBuffer | word2vec-abc/word2vec.c:577-599 | The refill loop writes exactly the sentence `Fill` describes into the buffer. It leaves the stream position, generator, counter and eof flag as `Fill` says. |
| Training.TrainingThread.constructor | word2vec-abc/word2vec.c:536-541 | A fresh thread has an empty sentence, counter 0, and generator seed equal to its id. |
| Training.TrainingThread.FillSentence | word2vec-abc/word2vec.c:576-601 | The buffer and state become the refill `Fill` describes, so the buffer holds vocabulary words only. Unless the thread must stop, the words left to train are unchanged. |
| Training.TrainingThread.TrainWord | word2vec-abc/word2vec.c:606-675 | Returns the word at the sentence position (a vocabulary id) and advances the generator once. b = next_random % window is below the window. It lists exactly the window's context positions and moves to the next position, marking the sentence used up after its last word. |
| Training.TrainingThread.Run | word2vec-abc/word2vec.c:556-676 | The sequence of target words trained is exactly `Trained`, and each is a vocabulary id other than `</s>`. |

## Left out

- Floating point: the network (InitNet, the unigram table, syn0/syn1 and the hierarchical-softmax updates), the learning-rate schedule and the progress output (word2vec.c:559-571) are not modelled.
- Subsampling: the subsampling probability (word2vec.c:590-592) is a parameter `keep(word, next_random & 0xFFFF)` of the refill.
- Unfinished source bodies: the negative-sampling, skip-gram and output-layer loop bodies are TODO in the source and are not modelled.
- Threads and files: the per-thread `fseek` into a chunk of the file, `word_count_actual` and thread start-up are not modelled. A thread's input is the sequence of ReadWordIndex results before end of file. Training.TrainingThread takes it as `ids` and does not compose it with Vocab.Vocabulary.ReadWordIndex.
- The word limit `train_words / num_threads` is the parameter `limit`.
- I/O functions: ReadVocab, SaveVocab, argument parsing and printing are not modelled.
- Memory management: calloc/realloc growth of `vocab` (word2vec.c:165-168, 236) and the `code`/`point` allocations are not modelled. The vocabulary is a sequence and codes are sequences.
- MAX_CODE_LENGTH: the 40-entry bound on the `code`/`point` buffers is not modelled. Huffman.CreateBinaryTree proves codes have at most vocab_size-1 bits and points one entry more (word2vec.c:483 writes `point[codelen]`), so both buffers are safe only when vocab_size is at most 40; a longer code overflows them.
- The guards at word2vec.c:608 and :630 (`word == -1` / `last_word == -1`) are not branches of Training.TrainingThread. In the corrected loop the buffer never holds -1, which TrainingThread.Valid and TrainingSpec.FillValid prove, so both are dead there. In the loop as written, the guard at :608 is live after an empty refill and is modelled in TrainingSpec.TrainedAsWritten.
- NUL bytes: ReadWord stores a NUL byte like any other, after which the C string ends early, so strlen, strcmp, strcpy and the hash stop there. The model keeps the whole byte sequence as the word, so a word with a NUL byte is distinct from its prefix before the NUL, and "non-empty" in Tokenizer.WordsAreClean counts bytes, not C-string characters.
- Training.TrainingThread.Valid: requires `window >= 1`. With `window == 0`, `next_random % window` at word2vec.c:618 divides by zero; the model does not describe that run.
- Huffman.CreateBinaryTree: requires the sum of all counts to be below the 1e15 sentinel, which the source assumes silently. Optimality of the tree, and "frequent words get shorter codes", are not proved.
- Vocab.Vocabulary.SearchVocab: requires a free slot in the table. The source would loop forever on a full table, which the 0.7 load limit prevents in the builder.
- Vocab.Vocabulary.AddWordToVocab: requires the word to be shorter than MAX_STRING, which every caller guarantees. The truncation of the `calloc` length at :157 is not modelled.
- Vocab.Vocabulary.SortVocab: requires `</s>` (vocab[0]) to be counted at least `min_count`. Otherwise the source drops the wrong word at :205-212. It also requires distinct words, which the counting loop keeps (VocabSpec.CountAllExact).
- Vocab.Vocabulary.LearnVocabFromTrainFile: the final SortVocab call (:365) is not composed, because SortVocab's assumption `vocab[0].cn >= min_count` is not guaranteed by the counting loop. A file with fewer than min_count newlines leaves `</s>` at index 0 below min_count (count 0 for a file without line breaks), and pruning can remove `</s>` from index 0 altogether (VocabSpec.PruningDropsBoundary), leaving whatever word moves there.
- Vocab.Vocabulary.CountWord: the load test `vocab_size > vocab_hash_size * 0.7` is the exact rational comparison 10·n > 7·size. Rounding of the double product is not modelled.
- VocabSpec.SortByCountCorrect: `qsort` is modelled by an insertion sort. qsort is not stable, and any sorted permutation is allowed, so the model fixes one of them.
- WordHash.GetWordHash: bytes of 128 and above are taken as negative, as plain `char` is signed on the usual targets. On a target with unsigned `char` the home slots differ, but the index invariants do not depend on them.
- Training.TrainingThread.Run: implements the corrected loop, which skips an empty refill. The loop as written is TrainingSpec.TrainedAsWritten (see Findings).

## Findings

| source | as written | input that shows it | evidently intended | confidence | as-written member | corrected member |
|---|---|---|---|---|---|---|
| word2vec-abc/word2vec.c:182 | `return b->cn - a->cn;` converts a `long long` difference to `int` | counts 0 and 2^31 compare as if the smaller were larger; counts 0 and 2^32 compare equal | order by decreasing count for all counts | not executed; high for counts of 2^31 and more | VocabSpec.VocabCompareOverflows | VocabSpec.CompareCounts |
| word2vec-abc/word2vec.c:576-608 | a refill whose first id is `</s>` leaves `sentence_length == 0`, and line 606 still trains on `sen[0]` | ids 5, `</s>`, `</s>`: word 5 is trained twice; ids `</s>`, 5, `</s>` with a stale `sen[0]` of 3 train 3, which is not in the stream (only -1 is caught by :608) | skip the empty sentence and train each kept word once | not executed; high | TrainingSpec.TrainedAsWritten, TrainingSpec.EmptySentenceRetrains, TrainingSpec.FirstEmptySentenceReadsGarbage | TrainingSpec.Trained, TrainingSpec.TrainedFromStream |
