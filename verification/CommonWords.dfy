/** The common-words task: are the generated answers really the most frequent words? */
module CommonWords {
  import opened Base26
  import opened Sorting

  /** A resolved configuration. */
  datatype Config = Config(freqCommon: nat, freqUncommon: nat, numCommon: nat)

  ghost predicate Resolved(c: Config) {
    c.freqCommon > c.freqUncommon > 0 && c.numCommon > 0
  }

  function Repeat(s: seq<string>, n: nat): seq<string> {
    if n == 0 then [] else Repeat(s, n - 1) + s
  }

  /** The words with indices in [lo, hi). */
  function Words(lo: nat, hi: nat): (r: seq<string>)
    requires lo <= hi
    ensures |r| == hi - lo && forall i :: 0 <= i < |r| ==> r[i] == Word(lo + i)
  {
    seq(hi - lo, i requires 0 <= i < hi - lo => Word(lo + i))
  }

  /** How many numbers in [lo, hi) leave residue r modulo 26^4. */
  ghost function Residues(lo: nat, hi: nat, r: nat): nat
    requires lo <= hi
    decreases hi
  {
    if lo == hi then 0 else Residues(lo, hi - 1, r) + (if (hi - 1) % WORDS == r then 1 else 0)
  }

  /** How many numbers below x leave residue r. */
  ghost function ResiduesBelow(x: nat, r: nat): nat {
    x / WORDS + (if x % WORDS > r then 1 else 0)
  }

  lemma {:induction false} ResiduesClosed(lo: nat, hi: nat, r: nat)
    requires lo <= hi && r < WORDS
    ensures Residues(lo, hi, r) == ResiduesBelow(hi, r) - ResiduesBelow(lo, r)
    decreases hi
  {
    if lo < hi {
      ResiduesClosed(lo, hi - 1, r);
      BelowStep(hi - 1, r);
    }
  }

  lemma BelowStep(x: nat, r: nat)
    requires r < WORDS
    ensures ResiduesBelow(x + 1, r) == ResiduesBelow(x, r) + (if x % WORDS == r then 1 else 0)
  {
  }

  /** In a contiguous range any two residues occur equally often, give or take one. */
  lemma ResiduesBalanced(lo: nat, hi: nat, r: nat, s: nat)
    requires lo <= hi && r < WORDS && s < WORDS
    ensures Residues(lo, hi, r) <= Residues(lo, hi, s) + 1
  {
    ResiduesClosed(lo, hi, r);
    ResiduesClosed(lo, hi, s);
  }

  lemma {:induction false} WordCount(lo: nat, hi: nat, j: nat)
    requires lo <= hi
    ensures multiset(Words(lo, hi))[Word(j)] == Residues(lo, hi, j % WORDS)
    decreases hi
  {
    hide Word;
    if lo < hi {
      WordCount(lo, hi - 1, j);
      WordsRepeat(hi - 1, j);
      assert Words(lo, hi) == Words(lo, hi - 1) + [Word(hi - 1)];
    }
  }

  lemma {:induction false} RepeatCount(s: seq<string>, n: nat, w: string)
    ensures multiset(Repeat(s, n))[w] == n * multiset(s)[w]
  {
    hide Repeat;
    if n == 0 {
      RepeatZero(s);
    } else {
      RepeatCount(s, n - 1, w);
      RepeatStep(s, n, w);
      var k := multiset(s)[w];
      assert n * k == (n - 1) * k + k;
    }
  }

  lemma RepeatZero(s: seq<string>)
    ensures Repeat(s, 0) == []
  {
  }

  lemma RepeatStep(s: seq<string>, n: nat, w: string)
    requires n > 0
    ensures multiset(Repeat(s, n))[w] == multiset(Repeat(s, n - 1))[w] + multiset(s)[w]
  {
    assert Repeat(s, n) == Repeat(s, n - 1) + s;
  }

  /** The answers are pairwise different, all occur, and each more often than any other word. */
  ghost predicate MostFrequent(answers: seq<string>, words: seq<string>) {
    && Distinct(answers)
    && (forall a :: a in answers ==> a in words)
    && forall a, w :: a in answers && w in words && w !in answers ==> multiset(words)[a] > multiset(words)[w]
  }

  /** The answers, and all words before shuffling. */
  function Common(c: Config, offset: nat): seq<string> { Words(offset, offset + c.numCommon) }

  function Ordered(c: Config, offset: nat, total: nat): seq<string>
    requires c.numCommon <= total
  {
    Repeat(Common(c, offset), c.freqCommon) + Repeat(Words(offset + c.numCommon, offset + total), c.freqUncommon)
  }

  ghost function Occurrences(c: Config, offset: nat, total: nat, j: nat): nat
    requires c.numCommon <= total
  {
    c.freqCommon * Residues(offset, offset + c.numCommon, j % WORDS)
    + c.freqUncommon * Residues(offset + c.numCommon, offset + total, j % WORDS)
  }

  lemma Counted(c: Config, offset: nat, total: nat, words: seq<string>, j: nat)
    requires c.numCommon <= total
    requires multiset(words) == multiset(Ordered(c, offset, total))
    ensures multiset(words)[Word(j)] == Occurrences(c, offset, total, j)
  {
    hide Word, Repeat, Residues;
    var common, uncommon := Words(offset, offset + c.numCommon), Words(offset + c.numCommon, offset + total);
    WordCount(offset, offset + c.numCommon, j);
    WordCount(offset + c.numCommon, offset + total, j);
    RepeatCount(common, c.freqCommon, Word(j));
    RepeatCount(uncommon, c.freqUncommon, Word(j));
  }

  lemma {:induction false} ResidueBounds(lo: nat, hi: nat, j: nat)
    requires lo <= hi
    ensures lo <= j < hi ==> Residues(lo, hi, j % WORDS) >= 1
    ensures Word(j) in Words(lo, hi) <==> Residues(lo, hi, j % WORDS) >= 1
    ensures hi - lo <= WORDS ==> Residues(lo, hi, j % WORDS) <= 1
  {
    hide Word;
    ResiduesClosed(lo, hi, j % WORDS);
    WordCount(lo, hi, j);
    assert Word(j) in Words(lo, hi) <==> Word(j) in multiset(Words(lo, hi));
    if lo <= j < hi {
      assert Words(lo, hi)[j - lo] == Word(j);
    }
  }

  lemma Outweighs(common: nat, uncommon: nat, fewer: nat, more: nat)
    requires common > uncommon && more <= fewer + 1
    ensures common + uncommon * fewer > uncommon * more
  {
    assert uncommon * more <= uncommon * (fewer + 1);
  }

  /** A common word beats every other word, even where a long vocabulary wraps around. */
  lemma CommonBeatsOthers(c: Config, offset: nat, total: nat, a: nat, w: nat)
    requires Resolved(c) && c.numCommon <= WORDS && c.numCommon <= total
    requires Word(a) in Words(offset, offset + c.numCommon) && Word(w) !in Words(offset, offset + c.numCommon)
    ensures Occurrences(c, offset, total, a) > Occurrences(c, offset, total, w)
  {
    hide Word, Residues, Words;
    var mid, end := offset + c.numCommon, offset + total;
    ResidueBounds(offset, mid, a);
    ResidueBounds(offset, mid, w);
    ResiduesBalanced(mid, end, w % WORDS, a % WORDS);
    var more, fewer := Residues(mid, end, w % WORDS), Residues(mid, end, a % WORDS);
    assert Residues(offset, mid, a % WORDS) == 1 && Residues(offset, mid, w % WORDS) == 0;
    Outweighs(c.freqCommon, c.freqUncommon, fewer, more);
  }

  lemma {:induction false} RepeatMember(s: seq<string>, n: nat, w: string)
    ensures w in Repeat(s, n) ==> w in s
  {
    if n > 0 {
      RepeatMember(s, n - 1, w);
    }
  }

  lemma WordOf(lo: nat, hi: nat, w: string) returns (j: nat)
    requires lo <= hi && w in Words(lo, hi)
    ensures lo <= j < hi && w == Word(j)
  {
    hide Word;
    var i :| 0 <= i < |Words(lo, hi)| && Words(lo, hi)[i] == w;
    j := lo + i;
  }

  lemma AnswersDistinct(lo: nat, hi: nat)
    requires lo <= hi
    ensures Distinct(Words(lo, hi)) <==> hi - lo <= WORDS
  {
    hide Word;
    if hi - lo <= WORDS {
      forall i, j | 0 <= i < j < hi - lo ensures Words(lo, hi)[i] != Words(lo, hi)[j] {
        WordsRepeat(lo + i, lo + j);
      }
    } else {
      WordsRepeat(lo, lo + WORDS);
      assert Words(lo, hi)[0] == Words(lo, hi)[WORDS];
    }
  }

  /** Every answer occurs at least as often as a common word is repeated. */
  lemma AnswersOccur(c: Config, offset: nat, total: nat, words: seq<string>, a: string)
    requires Resolved(c) && c.numCommon <= total && multiset(words) == multiset(Ordered(c, offset, total))
    requires a in Common(c, offset)
    ensures multiset(words)[a] >= c.freqCommon
  {
    hide Word, Repeat, Residues, Words, Ordered;
    var i := WordOf(offset, offset + c.numCommon, a);
    Counted(c, offset, total, words, i);
    ResidueBounds(offset, offset + c.numCommon, i);
    AtLeastOnce(c.freqCommon, Residues(offset, offset + c.numCommon, i % WORDS));
  }

  lemma AtLeastOnce(n: nat, k: nat)
    requires k >= 1
    ensures n * k >= n
  {
  }

  lemma OtherWord(c: Config, offset: nat, total: nat, words: seq<string>, w: string) returns (j: nat)
    requires c.numCommon <= total && multiset(words) == multiset(Ordered(c, offset, total))
    requires w in words && w !in Common(c, offset)
    ensures w == Word(j)
  {
    hide Word, Repeat;
    MultisetMember(words, Ordered(c, offset, total), w);
    RepeatMember(Common(c, offset), c.freqCommon, w);
    RepeatMember(Words(offset + c.numCommon, offset + total), c.freqUncommon, w);
    j := WordOf(offset + c.numCommon, offset + total, w);
  }

  /**
   For every count, offset draw and shuffle, the answers are exactly the strictly most frequent
   words if and only if no more than 26^4 of them are asked for.
   */
  lemma AnswersAreMostFrequent(c: Config, offset: nat, total: nat, words: seq<string>)
    requires Resolved(c) && c.numCommon <= total && multiset(words) == multiset(Ordered(c, offset, total))
    ensures MostFrequent(Common(c, offset), words) <==> c.numCommon <= WORDS
  {
    hide Word, Repeat, Occurrences, Ordered, Words, Distinct;
    var answers := Common(c, offset);
    AnswersDistinct(offset, offset + c.numCommon);
    forall a | a in answers ensures a in words {
      AnswersOccur(c, offset, total, words, a);
      assert a in multiset(words);
    }
    if c.numCommon <= WORDS {
      forall a, w | a in answers && w in words && w !in answers ensures multiset(words)[a] > multiset(words)[w] {
        var i := WordOf(offset, offset + c.numCommon, a);
        var j := OtherWord(c, offset, total, words, w);
        Counted(c, offset, total, words, i);
        Counted(c, offset, total, words, j);
        CommonBeatsOthers(c, offset, total, i, j);
      }
    }
  }

  /** How many distinct indices are used, and how many offsets may be drawn. */
  function Total(c: Config, count: int): nat {
    if c.numCommon + 1 < count then count else c.numCommon + 1
  }

  ghost function Room(c: Config, count: int): nat {
    if WORDS - Total(c, count) < 1 then 1 else WORDS - Total(c, count)
  }

  lemma SplitVocabulary(c: Config, offset: nat, total: nat)
    requires c.numCommon <= total
    ensures Words(offset, offset + total)[..c.numCommon] == Common(c, offset)
    ensures Words(offset, offset + total)[c.numCommon..] == Words(offset + c.numCommon, offset + total)
  {
    hide Word;
  }

  /** The list holds every word m times for each time it is in a, and n times for each time in b. */
  ghost predicate Mixed(words: seq<string>, a: seq<string>, m: nat, b: seq<string>, n: nat) {
    forall w :: multiset(words)[w] == m * multiset(a)[w] + n * multiset(b)[w]
  }

  lemma BothRepeated(a: seq<string>, m: nat, b: seq<string>, n: nat, words: seq<string>)
    requires multiset(words) == multiset(Repeat(a, m) + Repeat(b, n))
    ensures Mixed(words, a, m, b, n)
  {
    hide Repeat;
    forall w ensures multiset(words)[w] == m * multiset(a)[w] + n * multiset(b)[w] {
      RepeatCount(a, m, w);
      RepeatCount(b, n, w);
    }
  }

  /** Consecutive words of the vocabulary from index `from` on. */
  ghost predicate Consecutive(words: seq<string>, from: nat) {
    forall i :: 0 <= i < |words| ==> words[i] == Word(from + i)
  }

  /**
   The list for a drawn offset, shuffled in any way: of consecutive words of the vocabulary the first
   `numCommon` are the answers and occur `freqCommon` times each, the others `freqUncommon` times.
   The answers are right exactly up to 26^4 common words.
   */
  method Generate(c: Config, count: int, offset: nat) returns (words: seq<string>, answers: seq<string>, ghost others: seq<string>)
    requires Resolved(c) && offset < Room(c, count)
    ensures answers == Common(c, offset) && |answers| == c.numCommon
    ensures Consecutive(answers, offset) && Consecutive(others, offset + c.numCommon)
    ensures |others| >= 1 && |answers| + |others| >= count && (|others| == 1 || |answers| + |others| == count)
    ensures multiset(words) == multiset(Ordered(c, offset, Total(c, count)))
    ensures Mixed(words, answers, c.freqCommon, others, c.freqUncommon)
    ensures forall a :: a in answers ==> multiset(words)[a] >= c.freqCommon
    ensures MostFrequent(answers, words) <==> c.numCommon <= WORDS
  {
    hide Word, Words, Repeat, MostFrequent, Mixed, Room, Resolved;
    var distinct := Total(c, count);
    var vocabulary := Words(offset, offset + distinct);
    var common, uncommon := vocabulary[..c.numCommon], vocabulary[c.numCommon..];
    SplitVocabulary(c, offset, distinct);
    others := uncommon;
    var ordered := Repeat(common, c.freqCommon) + Repeat(uncommon, c.freqUncommon);
    words :| multiset(words) == multiset(ordered);
    answers := common;
    AnswersAreMostFrequent(c, offset, distinct, words);
    forall a | a in answers ensures multiset(words)[a] >= c.freqCommon {
      AnswersOccur(c, offset, distinct, words, a);
    }
    BothRepeated(common, c.freqCommon, uncommon, c.freqUncommon, words);
  }
}
