// ReadWord: splits the training corpus into words and sentence boundaries.

module Tokenizer {
  import opened WordHash

  /** Size of every word buffer in the program. */
  const MAX_STRING: nat := 100
  /** Longest word ReadWord can deliver: at index MAX_STRING - 1 the write
      index is pulled back to MAX_STRING - 2, and the terminating NUL lands
      there, so bytes from index MAX_STRING - 2 on are lost. */
  const MAX_WORD: nat := MAX_STRING - 2

  const CR: byte := 13
  const NL: byte := 10
  const SPACE: byte := 32
  const TAB: byte := 9

  /** The reserved sentence-boundary word "</s>". */
  const EOS: Word := [60, 47, 115, 62]

  predicate IsSeparator(c: byte)
  {
    c == SPACE || c == TAB || c == NL
  }

  /** What one call of ReadWord yields: end of file (whatever was
      collected is discarded by every caller), a bare newline read as the
      boundary token, or a word; `next` is where the following call starts. */
  datatype Step = Eof | Boundary(next: nat) | Token(word: Word, next: nat)

  /** A byte kept in the buffer: appended while fewer than MAX_WORD are held. */
  function Keep(acc: Word, c: byte): Word
  {
    if |acc| < MAX_WORD then acc + [c] else acc
  }

  /** Reference reading of the stream from `pos`, with `acc` the bytes of
      the current word collected so far. */
  function Scan(data: seq<byte>, pos: nat, acc: Word): (r: Step)
    requires pos <= |data|
    ensures r.Boundary? ==> pos < r.next <= |data|
    ensures r.Token? ==> pos <= r.next <= |data| && acc <= r.word && 0 < |r.word| &&
                         (|acc| <= MAX_WORD ==> |r.word| <= MAX_WORD)
    decreases |data| - pos
  {
    if pos == |data| then Eof
    else
      var c := data[pos];
      if c == CR then Scan(data, pos + 1, acc)
      else if IsSeparator(c) then
        if |acc| > 0 then Token(acc, if c == NL then pos else pos + 1)
        else if c == NL then Boundary(pos + 1)
        else Scan(data, pos + 1, acc)
      else Scan(data, pos + 1, Keep(acc, c))
  }

  /** One call of ReadWord from `pos`, with nothing collected yet. */
  function Read(data: seq<byte>, pos: nat): (r: Step)
    requires pos <= |data|
    ensures r.Boundary? ==> pos < r.next <= |data|
    ensures r.Token? ==> pos <= r.next <= |data| && 1 <= |r.word| <= MAX_WORD
  {
    Scan(data, pos, [])
  }

  /** ReadWord, on the stream `data` read from offset `pos`. `eof` is the
      end-of-file indicator the caller tests; a newline that ends a word is
      pushed back, so `next` then points at it. */
  method ReadWord(data: seq<byte>, pos: nat) returns (word: Word, next: nat, eof: bool)
    requires pos <= |data|
    ensures pos <= next <= |data|
    ensures eof <==> Read(data, pos) == Eof
    ensures Read(data, pos).Boundary? ==> word == EOS && next == Read(data, pos).next
    ensures Read(data, pos).Token? ==> word == Read(data, pos).word && next == Read(data, pos).next
  {
    var buf := new byte[MAX_STRING];
    var a := 0;
    var p := pos;
    eof := false;
    while !eof
      invariant pos <= p <= |data|
      invariant 0 <= a <= MAX_WORD
      invariant !eof ==> Read(data, pos) == Scan(data, p, buf[..a])
      invariant eof ==> Read(data, pos) == Eof && p == |data|
      decreases |data| - p + (if eof then 0 else 1)
    {
      var ch: int;
      if p < |data| {
        ch := data[p] as int;
        p := p + 1;
      } else {
        ch := -1;
        eof := true;
      }
      if ch == CR as int {
        continue;
      }
      if ch == SPACE as int || ch == TAB as int || ch == NL as int {
        if a > 0 {
          if ch == NL as int {
            p := p - 1;
          }
          break;
        }
        if ch == NL as int {
          word, next := EOS, p;
          return;
        }
        continue;
      }
      ghost var before := buf[..a];
      buf[a] := (ch % 256) as byte;
      a := a + 1;
      if a >= MAX_STRING - 1 {
        a := a - 1;
      }
      assert !eof ==> buf[..a] == Keep(before, ch as byte);
    }
    word, next := buf[..a], p;
  }

  /** A read that does not hit end of file consumes at least one byte; one
      that continues a word never moves backwards. */
  lemma {:induction false} ScanAdvances(data: seq<byte>, pos: nat, acc: Word)
    requires pos <= |data|
    ensures Scan(data, pos, acc).Boundary? || Scan(data, pos, acc).Token? ==>
              pos <= Scan(data, pos, acc).next <= |data| &&
              (acc == [] ==> pos < Scan(data, pos, acc).next)
    decreases |data| - pos
  {
    if pos < |data| {
      var c := data[pos];
      if c == CR || (IsSeparator(c) && acc == [] && c != NL) {
        ScanAdvances(data, pos + 1, acc);
      } else if !IsSeparator(c) {
        ScanAdvances(data, pos + 1, Keep(acc, c));
      }
    }
  }

  predicate Clean(w: Word)
  {
    forall i :: 0 <= i < |w| ==> !IsSeparator(w[i]) && w[i] != CR
  }

  /** Every word ReadWord delivers is non-empty, at most MAX_WORD bytes
      long, and holds no space, tab, newline or carriage return. */
  lemma {:induction false} ScanWordsAreClean(data: seq<byte>, pos: nat, acc: Word)
    requires pos <= |data|
    requires Clean(acc) && |acc| <= MAX_WORD
    ensures Scan(data, pos, acc).Token? ==>
              var w := Scan(data, pos, acc).word;
              0 < |w| <= MAX_WORD && Clean(w)
    decreases |data| - pos
  {
    if pos < |data| {
      var c := data[pos];
      if c == CR || (IsSeparator(c) && acc == [] && c != NL) {
        ScanWordsAreClean(data, pos + 1, acc);
      } else if !IsSeparator(c) {
        ScanWordsAreClean(data, pos + 1, Keep(acc, c));
      }
    }
  }

  lemma WordsAreClean(data: seq<byte>, pos: nat)
    requires pos <= |data|
    ensures Read(data, pos).Token? ==>
              0 < |Read(data, pos).word| <= MAX_WORD && Clean(Read(data, pos).word)
  {
    ScanWordsAreClean(data, pos, []);
  }

  /** The steps of reading the whole stream from `pos` until end of file,
      as the vocabulary builder's loop consumes them. */
  function Steps(data: seq<byte>, pos: nat): (r: seq<Step>)
    requires pos <= |data|
    ensures forall i :: 0 <= i < |r| ==> !r[i].Eof?
    decreases |data| - pos
  {
    var s := Read(data, pos);
    if s.Eof? then []
    else
      ScanAdvances(data, pos, []);
      [s] + Steps(data, s.next)
  }

  /** The word a step delivers: the word read, or "</s>" for a bare newline. */
  function StepWord(s: Step): Word
    requires !s.Eof?
  {
    if s.Boundary? then EOS else s.word
  }

  /** The words the vocabulary builder counts, in order, reading the
      stream from `pos` until end of file. */
  function Tokens(data: seq<byte>, pos: nat): (r: seq<Word>)
    requires pos <= |data|
    ensures forall i :: 0 <= i < |r| ==> 0 < |r[i]| <= MAX_WORD
    decreases |data| - pos
  {
    var s := Read(data, pos);
    if s.Eof? then []
    else
      ScanAdvances(data, pos, []);
      WordsAreClean(data, pos);
      [StepWord(s)] + Tokens(data, s.next)
  }

  /** Number of newline bytes in data[lo..hi]. */
  function Newlines(data: seq<byte>, lo: nat, hi: nat): nat
    requires lo <= hi <= |data|
    decreases hi - lo
  {
    if lo == hi then 0 else (if data[lo] == NL then 1 else 0) + Newlines(data, lo + 1, hi)
  }

  lemma {:induction false} NewlinesSplit(data: seq<byte>, lo: nat, mid: nat, hi: nat)
    requires lo <= mid <= hi <= |data|
    ensures Newlines(data, lo, hi) == Newlines(data, lo, mid) + Newlines(data, mid, hi)
    decreases mid - lo
  {
    if lo < mid {
      NewlinesSplit(data, lo + 1, mid, hi);
    }
  }

  /** A boundary step consumes exactly one newline, a word step none (the
      newline ending a word is pushed back), and end of file is reached only
      when no newline is left. */
  lemma {:induction false} ScanNewlines(data: seq<byte>, pos: nat, acc: Word)
    requires pos <= |data|
    ensures Scan(data, pos, acc).Eof? ==> Newlines(data, pos, |data|) == 0
    ensures Scan(data, pos, acc).Boundary? ==>
              pos < Scan(data, pos, acc).next <= |data| &&
              Newlines(data, pos, Scan(data, pos, acc).next) == 1
    ensures Scan(data, pos, acc).Token? ==>
              pos <= Scan(data, pos, acc).next <= |data| &&
              Newlines(data, pos, Scan(data, pos, acc).next) == 0
    decreases |data| - pos
  {
    if pos < |data| {
      var c := data[pos];
      if c == CR || (IsSeparator(c) && acc == [] && c != NL) {
        ScanNewlines(data, pos + 1, acc);
      } else if !IsSeparator(c) {
        ScanNewlines(data, pos + 1, Keep(acc, c));
      } else if c == NL && acc == [] {
        assert Newlines(data, pos + 1, pos + 1) == 0;
      }
    }
  }

  function BoundaryCount(steps: seq<Step>): nat
  {
    if steps == [] then 0 else (if steps[0].Boundary? then 1 else 0) + BoundaryCount(steps[1..])
  }

  /** Every newline of the stream yields exactly one sentence-boundary token. */
  lemma {:induction false} EveryNewlineIsOneBoundary(data: seq<byte>, pos: nat)
    requires pos <= |data|
    ensures BoundaryCount(Steps(data, pos)) == Newlines(data, pos, |data|)
    decreases |data| - pos
  {
    var s := Read(data, pos);
    ScanNewlines(data, pos, []);
    if !s.Eof? {
      ScanAdvances(data, pos, []);
      EveryNewlineIsOneBoundary(data, s.next);
      NewlinesSplit(data, pos, s.next, |data|);
      assert Steps(data, pos) == [s] + Steps(data, s.next);
      assert Steps(data, pos)[1..] == Steps(data, s.next);
    }
  }
}
