/** Fixed-width base-26 words, the vocabulary of the synthetic RULER tasks. */
module Base26 {
  import opened Arithmetic

  /** `string.ascii_lowercase[d]`. */
  function Letter(d: nat): (r: char)
    requires d < 26
    ensures 'a' <= r <= 'z'
  {
    ('a' as int + d) as char
  }

  function Power(width: nat): nat
    ensures Power(width) > 0
  {
    if width == 0 then 1 else 26 * Power(width - 1)
  }

  /** The last `width` base-26 digits, most significant first. */
  function Digits(value: nat, width: nat): (r: string)
    ensures |r| == width && forall k :: 0 <= k < width ==> 'a' <= r[k] <= 'z'
    decreases width
  {
    if width == 0 then "" else Digits(value / 26, width - 1) + [Letter(value % 26)]
  }

  function Reversed(s: string): (r: string)
    ensures |r| == |s|
  {
    if s == [] then [] else [s[|s| - 1]] + Reversed(s[..|s| - 1])
  }

  /** The digit loop, least significant digit first, then reversed. */
  method Encode(value: nat, width: nat) returns (s: string)
    ensures s == Digits(value, width)
    ensures |s| == width && Spelled(s) == value % Power(width)
  {
    hide Spelled, Power, Letter;
    var rest, chars := value, "";
    for i := 0 to width
      invariant Digits(value, width) == Digits(rest, width - i) + Reversed(chars)
    {
      var digit := Letter(rest % 26);
      assert (chars + [digit])[..|chars|] == chars;
      rest, chars := rest / 26, chars + [digit];
    }
    assert Digits(rest, 0) == "";
    s := Reversed(chars);
    DigitsSpell(value, width);
  }

  // ---------- what a word determines ----------

  /** Peeling one digit off commutes with reduction modulo 26 P. */
  lemma ModSplit(v: nat, p: nat)
    requires p > 0
    ensures v % (26 * p) == 26 * ((v / 26) % p) + v % 26
  {
    var high, low := v / 26, v % 26;
    var q, r := high / p, high % p;
    assert high == p * q + r;
    assert v == 26 * (p * q + r) + low;
    assert 26 * (p * q) == (26 * p) * q;
    DivModUnique(v, 26 * p, q, 26 * r + low);
  }

  /** Two numbers have the same `width`-letter word exactly when they agree modulo 26^width. */
  lemma {:induction false} DigitsDetermine(a: nat, b: nat, width: nat)
    ensures Digits(a, width) == Digits(b, width) <==> a % Power(width) == b % Power(width)
    decreases width
  {
    if width > 0 {
      DigitsDetermine(a / 26, b / 26, width - 1);
      ModSplit(a, Power(width - 1));
      ModSplit(b, Power(width - 1));
      var da, db := Digits(a, width), Digits(b, width);
      assert da[..width - 1] == Digits(a / 26, width - 1) && db[..width - 1] == Digits(b / 26, width - 1);
      assert da[width - 1] == Letter(a % 26) && db[width - 1] == Letter(b % 26);
      LettersDiffer(a % 26, b % 26);
    }
  }

  lemma LettersDiffer(d: nat, e: nat)
    requires d < 26 && e < 26
    ensures Letter(d) == Letter(e) <==> d == e
  {
  }

  /** The number that a word of lower-case letters spells, 'a' standing for 0. */
  ghost function Spelled(word: string): int {
    if word == [] then 0 else 26 * Spelled(word[..|word| - 1]) + (word[|word| - 1] as int - 'a' as int)
  }

  /** Encoding is undone by reading the word, up to what does not fit in its width. */
  lemma {:induction false} DigitsSpell(value: nat, width: nat)
    ensures Spelled(Digits(value, width)) == value % Power(width)
    decreases width
  {
    if width > 0 {
      DigitsSpell(value / 26, width - 1);
      ModSplit(value, Power(width - 1));
      assert Digits(value, width)[..width - 1] == Digits(value / 26, width - 1);
    }
  }

  const WORDS: nat := 456976  // 26^4

  function Word(index: nat): string { "ruler-" + Digits(index, 4) }

  lemma FourLetters()
    ensures Power(4) == WORDS
  {
    assert Power(1) == 26 && Power(2) == 676 && Power(3) == 17576;
  }

  /** A word is the prefix and four letters that spell its index modulo 26^4. */
  lemma WordSpells(index: nat)
    ensures |Word(index)| == 10 && Word(index)[..6] == "ruler-" && Spelled(Word(index)[6..]) == index % WORDS
    ensures forall k :: 6 <= k < 10 ==> 'a' <= Word(index)[k] <= 'z'
  {
    FourLetters();
    DigitsSpell(index, 4);
    assert Word(index)[6..] == Digits(index, 4);
  }

  /** Words repeat with period 26^4 and never within it. */
  lemma WordsRepeat(i: nat, j: nat)
    ensures Word(i) == Word(j) <==> i % WORDS == j % WORDS
  {
    DigitsDetermine(i, j, 4);
    FourLetters();
    assert Word(i)[6..] == Digits(i, 4) && Word(j)[6..] == Digits(j, 4);
  }
}
