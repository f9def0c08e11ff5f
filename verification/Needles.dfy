/**
 The multi-key needle task: in the text that the model is given, the query and its answer occur in
 the needle and nowhere else.
*/
module Needles {
  import opened Base26

  datatype Sentence = Sentence(key: string, value: string)

  /** The stream of random numbers never settles on `answer` forever. */
  ghost predicate Escapes(stream: nat -> string, answer: string, from: nat) {
    exists s :: s >= from && stream(s) != answer
  }

  /** Steps on from a key that collides with the query; one step is always enough. */
  method DistractorKey(start: nat, query: nat) returns (key: string)
    requires start < WORDS && query < WORDS
    ensures key != Word(query)
    ensures key == Word(if start == query then (query + 1) % WORDS else start)
  {
    hide Word;
    var index: nat := start;
    key := Word(index);
    while key == Word(query)
      invariant key == Word(index) && index < WORDS
      invariant index == start || (start == query && index == (query + 1) % WORDS)
      decreases if index == query then 1 else 0
    {
      WordsRepeat(index, query);
      index := (index + 1) % WORDS;
      key := Word(index);
    }
    WordsRepeat(start, query);
  }

  /** Draws until the number differs from the answer. */
  method DistractorValue(stream: nat -> string, position: nat, answer: string) returns (value: string, next: nat)
    requires Escapes(stream, answer, position)
    ensures value != answer && next > position && value == stream(next - 1)
    ensures forall s :: position <= s < next - 1 ==> stream(s) == answer
  {
    ghost var stop :| stop >= position && stream(stop) != answer;
    next := position + 1;
    value := stream(position);
    while value == answer
      invariant position < next <= stop + 1 && value == stream(next - 1)
      invariant forall s :: position <= s < next - 1 ==> stream(s) == answer
      decreases stop + 1 - next
    {
      value := stream(next);
      next := next + 1;
    }
  }

  // ---------- the rendered haystack ----------

  const LEAD: string := "One of the special magic numbers for "
  const MIDDLE: string := " is: "

  ghost predicate IsDigit(c: char) { '0' <= c <= '9' }

  /** The decimal form of a number between 1000000 and 9999999. */
  ghost predicate IsNumber(v: string) {
    |v| == 7 && forall k :: 0 <= k < 7 ==> IsDigit(v[k])
  }

  ghost predicate IsWord(w: string) {
    exists index: nat :: index < WORDS && w == Word(index)
  }

  ghost predicate WellFormed(s: Sentence) { IsWord(s.key) && IsNumber(s.value) }

  function Text(s: Sentence): string { LEAD + s.key + MIDDLE + s.value + "." }

  /** The sentences, separated by line breaks. */
  function Context(sentences: seq<Sentence>): string {
    if sentences == [] then ""
    else if |sentences| == 1 then Text(sentences[0])
    else Context(sentences[..|sentences| - 1]) + "\n" + Text(sentences[|sentences| - 1])
  }

  ghost predicate OccursAt(text: string, part: string, p: nat) {
    p + |part| <= |text| && text[p..p + |part|] == part
  }

  // Every sentence is 60 characters long: the key starts at 37, its hyphen is at 42, the value starts at 52.
  const BLOCK := 61
  const KEY_AT := 37
  const VALUE_AT := 52

  lemma LeadText(c: char)
    ensures |LEAD| == KEY_AT
    ensures c in LEAD ==> c != '-' && !IsDigit(c)
  {
  }

  /** The fixed parts of the text hold neither hyphens nor digits. */
  lemma FixedText(c: char)
    ensures |LEAD| == KEY_AT && |MIDDLE| == 5
    ensures c in LEAD || c in MIDDLE || c == '.' || c == '\n' ==> c != '-' && !IsDigit(c)
  {
    LeadText(c);
    assert c in MIDDLE ==> c == ' ' || c == 'i' || c == 's' || c == ':';
  }

  lemma WordShape(w: string)
    requires IsWord(w)
    ensures |w| == 10 && w[5] == '-'
    ensures forall k :: 0 <= k < 10 ==> !IsDigit(w[k]) && (w[k] == '-' ==> k == 5)
  {
    var index: nat :| index < WORDS && w == Word(index);
    var digits := Digits(index, 4);
    forall k | 0 <= k < 10 ensures !IsDigit(w[k]) && (w[k] == '-' ==> k == 5) {
      if k >= 6 {
        assert w[k] == digits[k - 6];
      }
    }
  }

  /** Character o of a sentence. */
  lemma TextAt(s: Sentence, o: nat)
    requires |s.key| == 10 && |s.value| == 7 && o < 60
    ensures |Text(s)| == 60
    ensures Text(s)[o] ==
      if o < KEY_AT then LEAD[o] else if o < 47 then s.key[o - KEY_AT] else if o < VALUE_AT then MIDDLE[o - 47]
      else if o < 59 then s.value[o - VALUE_AT] else '.'
  {
    FixedText('a');
  }

  /** A sentence has one hyphen, inside its key, and digits only in its value. */
  lemma TextShape(s: Sentence, o: nat)
    requires WellFormed(s) && o < 60
    ensures |Text(s)| == 60
    ensures Text(s)[o] == '-' <==> o == KEY_AT + 5
    ensures IsDigit(Text(s)[o]) <==> VALUE_AT <= o < VALUE_AT + 7
    ensures Text(s)[KEY_AT..KEY_AT + 10] == s.key && Text(s)[VALUE_AT..VALUE_AT + 7] == s.value
  {
    hide IsWord, IsDigit;
    WordShape(s.key);
    FixedText(Text(s)[o]) by { TextLength(s); }
    TextAt(s, o);
    KeyAndValue(s);
    assert !IsDigit('-') by { NotDigits(); }
  }

  lemma NotDigits()
    ensures !IsDigit('-')
  {
  }

  lemma TextLength(s: Sentence)
    requires WellFormed(s)
    ensures |Text(s)| == 60
  {
    WordShape(s.key);
    FixedText('a');
  }

  lemma KeyAndValue(s: Sentence)
    requires |s.key| == 10 && |s.value| == 7
    ensures |Text(s)| == 60 && Text(s)[KEY_AT..KEY_AT + 10] == s.key && Text(s)[VALUE_AT..VALUE_AT + 7] == s.value
  {
    TextAt(s, 0);
    var text := Text(s);
    forall k | 0 <= k < 10 ensures text[KEY_AT + k] == s.key[k] {
      TextAt(s, KEY_AT + k);
    }
    forall k | 0 <= k < 7 ensures text[VALUE_AT + k] == s.value[k] {
      TextAt(s, VALUE_AT + k);
    }
  }

  ghost predicate AllWellFormed(sentences: seq<Sentence>) {
    forall i :: 0 <= i < |sentences| ==> WellFormed(sentences[i])
  }

  /** Sentence i occupies the characters from i * BLOCK on, followed by a line break unless it is the last. */
  lemma {:induction false} ContextBlocks(sentences: seq<Sentence>, i: nat)
    requires AllWellFormed(sentences) && i < |sentences|
    ensures |Context(sentences)| == |sentences| * BLOCK - 1
    ensures Context(sentences)[i * BLOCK..i * BLOCK + 60] == Text(sentences[i])
    ensures i < |sentences| - 1 ==> Context(sentences)[i * BLOCK + 60] == '\n'
  {
    hide WellFormed, Text;
    var n := |sentences| - 1;
    WellFormedLength(sentences, n);
    if n > 0 {
      var front := sentences[..n];
      ContextBlocks(front, if i < n then i else 0);
      if i < n {
        assert front[i] == sentences[i];
      }
    }
  }

  lemma WellFormedLength(sentences: seq<Sentence>, i: nat)
    requires AllWellFormed(sentences) && i < |sentences|
    ensures |Text(sentences[i])| == 60
  {
    TextLength(sentences[i]);
  }

  /** What stands at position x of the text. */
  lemma CharAt(sentences: seq<Sentence>, x: nat) returns (i: nat, o: nat)
    requires AllWellFormed(sentences) && x < |Context(sentences)|
    ensures x == i * BLOCK + o && o < BLOCK && i < |sentences|
    ensures o < 60 ==> |Text(sentences[i])| == 60 && Context(sentences)[x] == Text(sentences[i])[o]
    ensures o == 60 ==> Context(sentences)[x] == '\n'
    ensures |Context(sentences)| == |sentences| * BLOCK - 1
  {
    hide WellFormed, Text;
    assert sentences != [];
    ContextBlocks(sentences, 0);
    i, o := x / BLOCK, x % BLOCK;
    ContextBlocks(sentences, i);
    if o < 60 {
      WellFormedLength(sentences, i);
      assert Context(sentences)[i * BLOCK..i * BLOCK + 60][o] == Context(sentences)[x];
    }
  }

  /** A word occurs exactly where a sentence has it as its key. */
  lemma WordOccurs(sentences: seq<Sentence>, w: string, p: nat)
    requires AllWellFormed(sentences) && IsWord(w)
    ensures OccursAt(Context(sentences), w, p) <==>
      exists i :: 0 <= i < |sentences| && p == i * BLOCK + KEY_AT && sentences[i].key == w
  {
    hide WellFormed, IsWord, Text, Context, AllWellFormed;
    WordShape(w);
    var text := Context(sentences);
    if OccursAt(text, w, p) {
      assert text[p + 5] == text[p..p + 10][5] == '-';
      var i, o := CharAt(sentences, p + 5);
      HyphenIsInKey(sentences, i, o);
      KeySlice(sentences, i);
      assert sentences[i].key == text[p..p + 10];
    }
    forall i | 0 <= i < |sentences| && p == i * BLOCK + KEY_AT && sentences[i].key == w ensures OccursAt(text, w, p) {
      KeySlice(sentences, i);
    }
  }

  lemma HyphenIsInKey(sentences: seq<Sentence>, i: nat, o: nat)
    requires AllWellFormed(sentences) && i < |sentences| && o < BLOCK
    requires o < 60 ==> |Text(sentences[i])| == 60 && Text(sentences[i])[o] == '-'
    requires o != 60
    ensures o == KEY_AT + 5
  {
    hide WellFormed, Text;
    TextShape(sentences[i], o);
  }

  lemma KeySlice(sentences: seq<Sentence>, i: nat)
    requires AllWellFormed(sentences) && i < |sentences|
    ensures |Context(sentences)| == |sentences| * BLOCK - 1 && i * BLOCK + 60 <= |Context(sentences)|
    ensures Context(sentences)[i * BLOCK + KEY_AT..i * BLOCK + KEY_AT + 10] == sentences[i].key
    ensures Context(sentences)[i * BLOCK + VALUE_AT..i * BLOCK + VALUE_AT + 7] == sentences[i].value
  {
    hide WellFormed, Text, Context;
    ContextBlocks(sentences, i);
    TextShape(sentences[i], 0) by { assert WellFormed(sentences[i]); }
    SliceOfSlice(Context(sentences), i * BLOCK, i * BLOCK + 60, KEY_AT, KEY_AT + 10);
    SliceOfSlice(Context(sentences), i * BLOCK, i * BLOCK + 60, VALUE_AT, VALUE_AT + 7);
  }

  lemma SliceOfSlice<T>(s: seq<T>, from: nat, to: nat, a: nat, b: nat)
    requires from <= to <= |s| && a <= b <= to - from
    ensures s[from..to][a..b] == s[from + a..from + b]
  {
    var block := s[from..to];
    forall k | 0 <= k < b - a ensures block[a..b][k] == s[from + a..from + b][k] {
      assert block[a..b][k] == block[a + k] == s[from + a + k];
    }
  }

  /** A number occurs exactly where a sentence has it as its value. */
  lemma NumberOccurs(sentences: seq<Sentence>, v: string, p: nat)
    requires AllWellFormed(sentences) && IsNumber(v)
    ensures OccursAt(Context(sentences), v, p) <==>
      exists i :: 0 <= i < |sentences| && p == i * BLOCK + VALUE_AT && sentences[i].value == v
  {
    hide WellFormed, IsWord, Text, Context, AllWellFormed, IsDigit;
    var text := Context(sentences);
    if OccursAt(text, v, p) {
      assert text[p] == text[p..p + 7][0] == v[0] && text[p + 6] == text[p..p + 7][6] == v[6];
      var i, o := CharAt(sentences, p);
      DigitIsInValue(sentences, i, o, text[p]);
      var i', o' := CharAt(sentences, p + 6);
      DigitIsInValue(sentences, i', o', text[p + 6]);
      SameBlock(i, o, i', o');
      KeySlice(sentences, i);
      assert sentences[i].value == text[p..p + 7];
    }
    forall i | 0 <= i < |sentences| && p == i * BLOCK + VALUE_AT && sentences[i].value == v ensures OccursAt(text, v, p) {
      KeySlice(sentences, i);
    }
  }

  lemma DigitIsInValue(sentences: seq<Sentence>, i: nat, o: nat, c: char)
    requires AllWellFormed(sentences) && i < |sentences| && o < BLOCK && IsDigit(c)
    requires o < 60 ==> |Text(sentences[i])| == 60 && Text(sentences[i])[o] == c
    requires o == 60 ==> c == '\n'
    ensures VALUE_AT <= o < VALUE_AT + 7
  {
    if o < 60 {
      hide WellFormed, Text, IsDigit;
      TextShape(sentences[i], o);
    }
  }

  /** Two positions six apart, both inside values, are the ends of one value. */
  lemma SameBlock(i: nat, o: nat, i': nat, o': nat)
    requires i * BLOCK + o + 6 == i' * BLOCK + o' && VALUE_AT <= o < VALUE_AT + 7 && VALUE_AT <= o' < VALUE_AT + 7
    ensures i == i' && o == VALUE_AT
  {
  }

  // ---------- generation ----------

  ghost predicate Clean(sentences: seq<Sentence>, query: string, answer: string) {
    forall i :: 0 <= i < |sentences| ==> WellFormed(sentences[i]) && sentences[i].key != query && sentences[i].value != answer
  }

  /** The needle is sentence n, and no other sentence has its key or its value. */
  ghost predicate OnlyNeedle(sentences: seq<Sentence>, query: string, answer: string, n: nat) {
    && n < |sentences| && sentences[n] == Sentence(query, answer) && AllWellFormed(sentences)
    && forall i :: 0 <= i < |sentences| && i != n ==> sentences[i].key != query && sentences[i].value != answer
  }

  /** In the text, the query and the answer occur once each: in the needle. */
  lemma NeedleText(sentences: seq<Sentence>, query: string, answer: string, n: nat)
    requires OnlyNeedle(sentences, query, answer, n)
    ensures forall p: nat :: OccursAt(Context(sentences), query, p) <==> p == n * BLOCK + KEY_AT
    ensures forall p: nat :: OccursAt(Context(sentences), answer, p) <==> p == n * BLOCK + VALUE_AT
  {
    hide Context, OccursAt, Text;
    assert WellFormed(sentences[n]);
    hide WellFormed, AllWellFormed;
    forall p: nat
      ensures OccursAt(Context(sentences), query, p) <==> p == n * BLOCK + KEY_AT
      ensures OccursAt(Context(sentences), answer, p) <==> p == n * BLOCK + VALUE_AT
    {
      WordOccurs(sentences, query, p);
      NumberOccurs(sentences, answer, p);
    }
  }

  lemma NeedleInserted(list: seq<Sentence>, query: string, answer: string, n: nat)
    requires Clean(list, query, answer) && n <= |list| && WellFormed(Sentence(query, answer))
    ensures OnlyNeedle(list[..n] + [Sentence(query, answer)] + list[n..], query, answer, n)
  {
    hide WellFormed;
    var all := list[..n] + [Sentence(query, answer)] + list[n..];
    forall i | 0 <= i < |all|
      ensures WellFormed(all[i]) && (i != n ==> all[i].key != query && all[i].value != answer)
    {
      assert i != n ==> all[i] == if i < n then list[i] else list[i - 1];
    }
  }

  /** Distractor i has its drawn key, or the word after the query where that is the query. */
  ghost predicate DrawnKey(s: Sentence, i: nat, query: nat, starts: nat -> nat) {
    var drawn := (i + starts(i)) % WORDS;
    s.key == Word(if drawn == query then (query + 1) % WORDS else drawn)
  }

  /** Distractor i has the number of draw at[i]; every draw skipped before it was the answer. */
  ghost predicate DrawnValue(s: Sentence, i: nat, stream: nat -> string, answer: string, at: seq<nat>)
    requires i < |at|
  {
    var from := if i == 0 then 0 else at[i - 1] + 1;
    from <= at[i] && s.value == stream(at[i]) != answer && forall p :: from <= p < at[i] ==> stream(p) == answer
  }

  /** The distractors, in order, are those that the draws determine. */
  ghost predicate Drawn(list: seq<Sentence>, query: nat, answer: string, starts: nat -> nat, stream: nat -> string, at: seq<nat>) {
    && |at| == |list|
    && forall i: nat :: i < |list| ==> DrawnKey(list[i], i, query, starts) && DrawnValue(list[i], i, stream, answer, at)
  }

  lemma DrawnNext(list: seq<Sentence>, query: nat, answer: string, starts: nat -> nat, stream: nat -> string, at: seq<nat>, s: Sentence, position: nat)
    requires Drawn(list, query, answer, starts, stream, at) && DrawnKey(s, |list|, query, starts)
    requires DrawnValue(s, |list|, stream, answer, at + [position])
    ensures Drawn(list + [s], query, answer, starts, stream, at + [position])
  {
    hide DrawnKey;
    forall i: nat | i < |list| ensures DrawnValue(list[i], i, stream, answer, at + [position]) {
      assert DrawnValue(list[i], i, stream, answer, at);
    }
  }

  lemma NeedleRemoved(list: seq<Sentence>, needle: Sentence, n: nat)
    requires n <= |list|
    ensures var all := list[..n] + [needle] + list[n..]; all[..n] + all[n + 1..] == list
  {
  }

  /**
   The haystack of `count` distractors with the needle inserted at the drawn position.  Without the
   needle the sentences are the distractors that the draws determine, in order.
   */
  method Haystack(count: nat, query: nat, stream: nat -> string, starts: nat -> nat, answer: string, insertion: nat)
    returns (sentences: seq<Sentence>, ghost at: seq<nat>)
    requires query < WORDS && insertion <= count && IsNumber(answer)
    requires forall p {:trigger stream(p)} :: IsNumber(stream(p))
    requires forall p :: Escapes(stream, answer, p)
    ensures |sentences| == count + 1 && OnlyNeedle(sentences, Word(query), answer, insertion)
    ensures Drawn(sentences[..insertion] + sentences[insertion + 1..], query, answer, starts, stream, at)
    ensures forall p: nat :: OccursAt(Context(sentences), Word(query), p) <==> p == insertion * BLOCK + KEY_AT
    ensures forall p: nat :: OccursAt(Context(sentences), answer, p) <==> p == insertion * BLOCK + VALUE_AT
  {
    hide Word, OnlyNeedle, OccursAt, Context, IsNumber, Drawn, DrawnKey, DrawnValue;
    var list: seq<Sentence> := [];
    var position := 0;
    at := [];
    NothingDrawn(query, answer, starts, stream);
    for i := 0 to count
      invariant |list| == |at| == i && Clean(list, Word(query), answer)
      invariant Drawn(list, query, answer, starts, stream, at) && position == (if i == 0 then 0 else at[i - 1] + 1)
    {
      var key := DistractorKey((i + starts(i)) % WORDS, query);
      assert Escapes(stream, answer, position);
      var value, next := DistractorValue(stream, position, answer);
      DrawnOne(Sentence(key, value), i, query, answer, starts, stream, at, position, next);
      DrawnNext(list, query, answer, starts, stream, at, Sentence(key, value), next - 1);
      at := at + [next - 1];
      position := next;
      list := list + [Sentence(key, value)];
    }
    sentences := list[..insertion] + [Sentence(Word(query), answer)] + list[insertion..];
    NeedleInserted(list, Word(query), answer, insertion);
    NeedleRemoved(list, Sentence(Word(query), answer), insertion);
    NeedleText(sentences, Word(query), answer, insertion);
  }

  lemma NothingDrawn(query: nat, answer: string, starts: nat -> nat, stream: nat -> string)
    ensures Drawn([], query, answer, starts, stream, [])
  {
  }

  lemma DrawnOne(s: Sentence, i: nat, query: nat, answer: string, starts: nat -> nat, stream: nat -> string, at: seq<nat>, position: nat, next: nat)
    requires i == |at| && position == (if i == 0 then 0 else at[i - 1] + 1) && next > position
    requires s.key == Word(if (i + starts(i)) % WORDS == query then (query + 1) % WORDS else (i + starts(i)) % WORDS)
    requires s.value == stream(next - 1) != answer && forall p :: position <= p < next - 1 ==> stream(p) == answer
    ensures DrawnKey(s, i, query, starts) && DrawnValue(s, i, stream, answer, at + [next - 1])
  {
    hide Word;
  }
}
