/** The bad-words filter: logits of tokens that would complete a forbidden word become minus infinity. */
module BadWords {
  import opened Wrappers

  /** A logit or bias: a finite value or minus infinity. */
  datatype Logit = Finite(value: real) | NegInf

  function Plus(a: Logit, b: Logit): Logit {
    if a.Finite? && b.Finite? then Finite(a.value + b.value) else NegInf
  }

  type Word = seq<nat>

  ghost predicate Words(words: seq<Word>) {
    forall w :: 0 <= w < |words| ==> words[w] != []
  }

  /** `_check_token_ids_bounds`: every token of every word is in the vocabulary. */
  predicate InBounds(words: seq<Word>, vocabSize: nat) {
    forall w :: 0 <= w < |words| ==> forall i :: 0 <= i < |words[w]| ==> words[w][i] < vocabSize
  }

  /** What the filter is for: s ends in w. */
  predicate EndsIn(s: seq<nat>, w: Word) {
    |w| <= |s| && s[|s| - |w|..] == w
  }

  /** Appending t to the history would complete a bad word. */
  predicate Completes(words: seq<Word>, past: seq<nat>, t: nat) {
    exists w :: 0 <= w < |words| && EndsIn(past + [t], words[w])
  }

  /** A one-token word ends in its token whatever came before; a longer one needs its prefix at the end of the
      history. */
  lemma {:induction false} EndsInByPrefix(w: Word, past: seq<nat>, t: nat)
    requires w != []
    ensures EndsIn(past + [t], w) <==>
              w[|w| - 1] == t && |w| <= |past| + 1 && past[|past| - (|w| - 1)..] == w[..|w| - 1]
  {
    var n := |w| - 1;
    if |w| <= |past| + 1 {
      assert (past + [t])[|past| - n..] == past[|past| - n..] + [t];
      assert w == w[..n] + [w[n]];
    }
  }

  /** Some word among the first n is one token long and equals t. */
  predicate SingleAmong(words: seq<Word>, n: nat, t: nat)
    requires n <= |words|
  {
    exists w :: 0 <= w < n && words[w] == [t]
  }

  /** Some longer word among the first n is completed by t. */
  predicate MultiAmong(words: seq<Word>, n: nat, past: seq<nat>, t: nat)
    requires n <= |words|
  {
    exists w :: 0 <= w < n && |words[w]| > 1 && EndsIn(past + [t], words[w])
  }

  lemma {:induction false} SingleOrMulti(words: seq<Word>, past: seq<nat>, t: nat)
    requires Words(words)
    ensures Completes(words, past, t) <==> SingleAmong(words, |words|, t) || MultiAmong(words, |words|, past, t)
  {
    forall w | 0 <= w < |words| && |words[w]| == 1 ensures EndsIn(past + [t], words[w]) <==> words[w] == [t] {
      EndsInByPrefix(words[w], past, t);
    }
  }

  class NoBadWordsLogitsProcessor {
    const badWords: seq<Word>
    var wordBias: Option<seq<Logit>>

    constructor (badWords: seq<Word>)
      ensures this.badWords == badWords && wordBias.None?
    {
      this.badWords, wordBias := badWords, None;
    }

    /** The cached bias, once there, marks exactly the one-token words. */
    ghost predicate Valid()
      reads this
    {
      && Words(badWords)
      && (wordBias.Some? ==>
            && InBounds(badWords, |wordBias.value|)
            && forall t :: 0 <= t < |wordBias.value| ==>
                 wordBias.value[t] == if SingleAmong(badWords, |badWords|, t) then NegInf else Finite(0.0))
    }

    /** Fills the cache on the first call; `ok` is false where the source raises for a token outside the vocabulary. */
    method InitWordBias(vocabSize: nat) returns (ok: bool)
      requires Valid() && wordBias.None?
      modifies this
      ensures Valid() && ok == InBounds(badWords, vocabSize)
      ensures if ok then wordBias.Some? && |wordBias.value| == vocabSize else wordBias.None?
    {
      if !InBounds(badWords, vocabSize) {
        return false;
      }
      var bias := new Logit[vocabSize](_ => Finite(0.0));
      for n := 0 to |badWords|
        invariant wordBias.None?
        invariant forall t :: 0 <= t < vocabSize ==>
                    bias[t] == if SingleAmong(badWords, n, t) then NegInf else Finite(0.0)
      {
        var word := badWords[n];
        if |word| == 1 {
          bias[word[0]] := NegInf;
          assert word == [word[0]];
        }
      }
      wordBias := Some(bias[..]);
      return true;
    }

    /** One call. The output at t is minus infinity exactly when the logit already was or t would complete a bad
        word; otherwise the logit is unchanged. */
    method Call(past: seq<nat>, logits: seq<Logit>) returns (ok: bool, output: seq<Logit>)
      requires Valid() && (wordBias.Some? ==> |wordBias.value| == |logits|)
      modifies this
      ensures Valid() && ok == InBounds(badWords, |logits|)
      ensures ok ==> wordBias.Some? && |wordBias.value| == |logits| == |output|
      ensures ok ==> forall t :: 0 <= t < |logits| ==>
                output[t] == if Completes(badWords, past, t) then NegInf else logits[t]
    {
      output := [];
      ok := true;
      if wordBias.None? {
        ok := InitWordBias(|logits|);
        if !ok {
          return;
        }
      }
      var lastTokenBias := new Logit[|logits|](_ => Finite(0.0));
      for n := 0 to |badWords|
        invariant Valid() && wordBias.Some? && |wordBias.value| == |logits|
        invariant forall t :: 0 <= t < |logits| ==>
                    lastTokenBias[t] == if MultiAmong(badWords, n, past, t) then NegInf else Finite(0.0)
      {
        var word := badWords[n];
        if |word| != 1 && |word| <= |past| + 1 {
          var prefixLength := |word| - 1;
          var last := word[prefixLength];
          var isMatch := past[|past| - prefixLength..] == word[..prefixLength];
          forall t: nat | t < |logits| ensures EndsIn(past + [t], word) <==> t == last && isMatch {
            EndsInByPrefix(word, past, t);
          }
          lastTokenBias[last] := Plus(lastTokenBias[last], if isMatch then NegInf else Finite(0.0));
        }
      }
      ghost var (words, single) := (badWords, wordBias.value);
      output := seq(|logits|, t requires 0 <= t < |logits| reads this, lastTokenBias
                                requires wordBias.Some? && |wordBias.value| == |logits| == lastTokenBias.Length =>
        Plus(Plus(logits[t], wordBias.value[t]), lastTokenBias[t]));
      forall t: nat | t < |logits| ensures output[t] == if Completes(badWords, past, t) then NegInf else logits[t] {
        SingleOrMulti(badWords, past, t);
      }
    }
  }
}
