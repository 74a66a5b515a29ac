/**
  The bad-words processor of vllm/logits_process.py: a mask over the next token's logits, and
  what it guarantees over a whole generation.
*/
module BadWords {
  import opened Options

  /** A logit as far as the mask is concerned: minus infinity, or an exact number. */
  datatype Logit = NegInf | Finite(value: real)

  function Add(a: Logit, b: Logit): Logit {
    if a.Finite? && b.Finite? then Finite(a.value + b.value) else NegInf
  }

  type Word = seq<int>

  datatype Result<T> = Ok(value: T) | ValueError(invalid: seq<int>) | IndexError

  // ----- What the mask should be -----

  predicate IsSuffix(w: Word, text: seq<int>) {
    |w| <= |text| && text[|text| - |w|..] == w
  }

  /** Token `t` after `past` completes one of `words`. */
  predicate Completes(words: seq<Word>, past: seq<int>, t: int) {
    exists w <- words :: w != [] && IsSuffix(w, past + [t])
  }

  function Masked(words: seq<Word>, past: seq<int>, logits: seq<Logit>): seq<Logit> {
    seq(|logits|, t requires 0 <= t < |logits| => if Completes(words, past, t) then NegInf else logits[t])
  }

  predicate InVocabulary(w: Word, size: nat) {
    forall t <- w :: 0 <= t < size
  }

  predicate AllInVocabulary(words: seq<Word>, size: nat) {
    forall w <- words :: InVocabulary(w, size)
  }

  lemma {:induction false} InVocabularySnoc(w: Word, t: int, size: nat)
    ensures InVocabulary(w + [t], size) <==> InVocabulary(w, size) && 0 <= t < size
  {
    assert t in w + [t];
    assert forall u :: u in w + [t] <==> u in w || u == t;
  }

  // ----- The two biases the code adds -----

  ghost predicate CompletedByOne(words: seq<Word>, t: int) {
    [t] in words
  }

  /** What the loop tests of one word, with the last token as the place to mark. */
  predicate LongerHit(w: Word, past: seq<int>, t: int) {
    && 1 < |w| <= |past| + 1
    && past[|past| - (|w| - 1)..] == w[..|w| - 1] && w[|w| - 1] == t
  }

  predicate CompletedByLonger(words: seq<Word>, past: seq<int>, t: int) {
    words != [] &&
    (CompletedByLonger(words[..|words| - 1], past, t) || LongerHit(words[|words| - 1], past, t))
  }

  function Bias(hit: bool): Logit {
    if hit then NegInf else Finite(0.0)
  }

  lemma {:induction false} SuffixByLast(w: Word, past: seq<int>, t: int)
    requires w != []
    ensures IsSuffix(w, past + [t]) <==>
            |w| - 1 <= |past| && past[|past| - (|w| - 1)..] == w[..|w| - 1] && w[|w| - 1] == t
  {
    var text, n := past + [t], |w| - 1;
    if n <= |past| {
      assert text[|text| - |w|..] == past[|past| - n..] + [t];
      assert w == w[..n] + [w[n]];
    }
  }

  lemma {:induction false} LongerIsSuffix(words: seq<Word>, past: seq<int>, t: int)
    ensures CompletedByLonger(words, past, t) <==>
              exists i :: 0 <= i < |words| && |words[i]| > 1 && IsSuffix(words[i], past + [t])
  {
    if words != [] {
      var n := |words| - 1;
      LongerIsSuffix(words[..n], past, t);
      if words[n] != [] {
        SuffixByLast(words[n], past, t);
      }
    }
  }

  lemma {:induction false} CompletesSplit(words: seq<Word>, past: seq<int>, t: int)
    ensures Completes(words, past, t) <==> CompletedByOne(words, t) || CompletedByLonger(words, past, t)
  {
    SuffixByLast([t], past, t);
    assert past[|past| - 0..] == [];
    forall w | w in words && |w| == 1 && IsSuffix(w, past + [t]) ensures w == [t] {
      SuffixByLast(w, past, t);
    }
    LongerIsSuffix(words, past, t);
  }

  /** The bias after one more word of two or more tokens. */
  function Marked(bias: seq<Logit>, w: Word, past: seq<int>): (r: seq<Logit>)
    requires InVocabulary(w, |bias|)
    ensures |r| == |bias|
  {
    if 1 < |w| <= |past| + 1 then
      var n := |w| - 1;
      assert w[n] in w;
      bias[w[n] := Add(bias[w[n]], Bias(past[|past| - n..] == w[..n]))]
    else bias
  }

  lemma {:induction false} MarkedIs(w: Word, past: seq<int>, bias: seq<Logit>, t: nat, was: bool)
    requires InVocabulary(w, |bias|) && t < |bias| && bias[t] == Bias(was)
    ensures Marked(bias, w, past)[t] == Bias(was || LongerHit(w, past, t))
  {
    if 1 < |w| <= |past| + 1 {
      assert w[|w| - 1] in w;
    }
  }

  /** `bias` reflects `words`. */
  ghost predicate Reflects(bias: seq<Logit>, words: seq<Word>, past: seq<int>) {
    forall t | 0 <= t < |bias| :: bias[t] == Bias(CompletedByLonger(words, past, t))
  }

  lemma {:induction false} MarkedReflects(bias: seq<Logit>, words: seq<Word>, past: seq<int>, i: nat)
    requires i < |words| && InVocabulary(words[i], |bias|) && Reflects(bias, words[..i], past)
    ensures Reflects(Marked(bias, words[i], past), words[..i + 1], past)
  {
    assert words[..i + 1][..i] == words[..i];
    forall t | 0 <= t < |bias|
      ensures Marked(bias, words[i], past)[t] == Bias(CompletedByLonger(words[..i + 1], past, t))
    {
      MarkedIs(words[i], past, bias, t, CompletedByLonger(words[..i], past, t));
    }
  }

  class NoBadWordsLogitsProcessor {
    const badWordsIds: seq<Word>
    var wordBias: Option<seq<Logit>>

    ghost predicate Valid()
      reads this
    {
      wordBias.Some? ==>
        && AllInVocabulary(badWordsIds, |wordBias.value|)
        && forall t | 0 <= t < |wordBias.value| :: wordBias.value[t] == Bias(CompletedByOne(badWordsIds, t))
    }

    constructor (badWordsIds: seq<Word>)
      ensures Valid() && wordBias == None && this.badWordsIds == badWordsIds
    {
      this.badWordsIds := badWordsIds;
      wordBias := None;
    }

    method CheckTokenIdsBounds(vocabSize: nat) returns (invalid: seq<int>)
      ensures invalid == [] <==> AllInVocabulary(badWordsIds, vocabSize)
      ensures forall t <- invalid :: !(0 <= t < vocabSize) && exists w <- badWordsIds :: t in w
    {
      invalid := [];
      for i := 0 to |badWordsIds|
        invariant invalid == [] <==> AllInVocabulary(badWordsIds[..i], vocabSize)
        invariant forall t <- invalid :: !(0 <= t < vocabSize) && exists w <- badWordsIds :: t in w
      {
        var word := badWordsIds[i];
        ghost var before := invalid;
        for j := 0 to |word|
          invariant invalid == [] <==> before == [] && InVocabulary(word[..j], vocabSize)
          invariant forall t <- invalid :: !(0 <= t < vocabSize) && exists w <- badWordsIds :: t in w
        {
          assert word[..j + 1] == word[..j] + [word[j]];
          InVocabularySnoc(word[..j], word[j], vocabSize);
          if word[j] < 0 || word[j] >= vocabSize {
            assert word in badWordsIds && word[j] in word;
            invalid := invalid + [word[j]];
          }
        }
        assert word[..|word|] == word;
        assert badWordsIds[..i + 1] == badWordsIds[..i] + [word];
      }
      assert badWordsIds[..|badWordsIds|] == badWordsIds;
    }

    method InitWordBias(vocabSize: nat) returns (r: Result<()>)
      requires Valid() && wordBias == None
      modifies this
      ensures Valid()
      ensures r.Ok? <==> AllInVocabulary(badWordsIds, vocabSize)
      ensures r.Ok? ==> wordBias.Some? && |wordBias.value| == vocabSize
      ensures !r.Ok? ==> r.ValueError? && r.invalid != [] && wordBias == None
    {
      var invalid := CheckTokenIdsBounds(vocabSize);
      if invalid != [] {
        return ValueError(invalid);
      }
      var bias := new Logit[vocabSize](_ => Finite(0.0));
      for i := 0 to |badWordsIds|
        invariant forall t | 0 <= t < vocabSize :: bias[t] == Bias(CompletedByOne(badWordsIds[..i], t))
      {
        var word := badWordsIds[i];
        assert word in badWordsIds && badWordsIds[..i + 1] == badWordsIds[..i] + [word];
        if |word| == 1 {
          assert word == [word[0]] && word[0] in word;
          bias[word[0]] := NegInf;
        }
      }
      assert badWordsIds[..|badWordsIds|] == badWordsIds;
      wordBias := Some(bias[..]);
      return Ok(());
    }

    static method Mark(last: array<Logit>, word: Word, past: seq<int>)
      requires InVocabulary(word, last.Length)
      modifies last
      ensures last[..] == Marked(old(last[..]), word, past)
    {
      if |word| > 1 && |word| <= |past| + 1 {
        var prefixLength := |word| - 1;
        var lastId := word[prefixLength];
        assert lastId in word;
        var isMatch := past[|past| - prefixLength..] == word[..prefixLength];
        last[lastId] := Add(last[lastId], Bias(isMatch));
      }
    }

    /** The bias of the words of two or more tokens; None when a word is empty. */
    method LastTokenBias(past: seq<int>, vocabSize: nat) returns (r: Option<seq<Logit>>)
      requires AllInVocabulary(badWordsIds, vocabSize)
      ensures r.None? <==> [] in badWordsIds
      ensures r.Some? ==> |r.value| == vocabSize && Reflects(r.value, badWordsIds, past)
    {
      var last := new Logit[vocabSize](_ => Finite(0.0));
      for i := 0 to |badWordsIds|
        invariant [] !in badWordsIds[..i]
        invariant Reflects(last[..], badWordsIds[..i], past)
      {
        var word := badWordsIds[i];
        assert word in badWordsIds;
        if word == [] {
          return None;
        }
        MarkedReflects(last[..], badWordsIds, past, i);
        Mark(last, word, past);
      }
      assert badWordsIds[..|badWordsIds|] == badWordsIds;
      return Some(last[..]);
    }

    /** The mask for the next token; an empty bad word or an unknown token id is an error. */
    method Call(past: seq<int>, logits: seq<Logit>) returns (r: Result<seq<Logit>>)
      requires Valid() && (wordBias.Some? ==> |wordBias.value| == |logits|)
      modifies this
      ensures Valid() && (wordBias.Some? ==> |wordBias.value| == |logits|)
      ensures r.ValueError? <==> !AllInVocabulary(badWordsIds, |logits|)
      ensures r.IndexError? <==> AllInVocabulary(badWordsIds, |logits|) && [] in badWordsIds
      ensures r.Ok? ==> r.value == Masked(badWordsIds, past, logits)
    {
      if wordBias == None {
        var init := InitWordBias(|logits|);
        if init.ValueError? {
          return ValueError(init.invalid);
        }
      }
      var bias := wordBias.value;
      var lastBias := LastTokenBias(past, |logits|);
      if lastBias == None {
        return IndexError;
      }
      var last := lastBias.value;
      var out := seq(|logits|, t requires 0 <= t < |logits| => Add(Add(logits[t], bias[t]), last[t]));
      forall t | 0 <= t < |logits| ensures out[t] == Masked(badWordsIds, past, logits)[t] {
        CompletesSplit(badWordsIds, past, t);
      }
      return Ok(out);
    }
  }

  // ----- Whole generations -----

  /** Every token of `gen` was picked while its masked logit was above minus infinity. */
  ghost predicate Sampled(words: seq<Word>, prior: seq<int>, gen: seq<int>, raw: seq<seq<Logit>>) {
    |raw| == |gen| &&
    forall k | 0 <= k < |gen| ::
      0 <= gen[k] < |raw[k]| && Masked(words, prior + gen[..k], raw[k])[gen[k]].Finite?
  }

  /** An occurrence of `w` in `text` that ends after its first `n` tokens. */
  ghost predicate OccursAfter(w: Word, text: seq<int>, n: nat, i: nat) {
    n < i + |w| <= |text| && text[i..i + |w|] == w
  }

  ghost predicate FreeOf(words: seq<Word>, prior: seq<int>, gen: seq<int>) {
    forall w, i: nat | w in words && w != [] :: !OccursAfter(w, prior + gen, |prior|, i)
  }

  lemma {:induction false} OccurrenceIsSuffix(w: Word, prior: seq<int>, gen: seq<int>, k: nat, i: nat)
    requires k < |gen| && i + |w| == |prior| + k + 1
    ensures IsSuffix(w, (prior + gen[..k]) + [gen[k]]) <==> OccursAfter(w, prior + gen, |prior|, i)
  {
    var text := (prior + gen[..k]) + [gen[k]];
    assert text == (prior + gen)[..|prior| + k + 1];
    assert text[i..] == (prior + gen)[i..i + |w|];
  }

  /**
    Safety and precision over whole runs: sampling above minus infinity never lets a bad word end
    in generated text, and text without one could always have been sampled.
  */
  lemma {:induction false} SampledIffFree(words: seq<Word>, prior: seq<int>, gen: seq<int>, raw: seq<seq<Logit>>)
    requires |raw| == |gen|
    ensures Sampled(words, prior, gen, raw) ==> FreeOf(words, prior, gen)
    ensures FreeOf(words, prior, gen) &&
            (forall k | 0 <= k < |gen| :: 0 <= gen[k] < |raw[k]| && raw[k][gen[k]].Finite?)
            ==> Sampled(words, prior, gen, raw)
  {
    if Sampled(words, prior, gen, raw) {
      forall w, i: nat | w in words && w != [] ensures !OccursAfter(w, prior + gen, |prior|, i) {
        if OccursAfter(w, prior + gen, |prior|, i) {
          var k := i + |w| - |prior| - 1;
          OccurrenceIsSuffix(w, prior, gen, k, i);
          assert Completes(words, prior + gen[..k], gen[k]);
        }
      }
    }
    if FreeOf(words, prior, gen) {
      forall k | 0 <= k < |gen| ensures !Completes(words, prior + gen[..k], gen[k]) {
        forall w | w in words && w != [] ensures !IsSuffix(w, (prior + gen[..k]) + [gen[k]]) {
          if |w| <= |prior| + k + 1 {
            OccurrenceIsSuffix(w, prior, gen, k, |prior| + k + 1 - |w|);
          }
        }
      }
    }
  }
}
