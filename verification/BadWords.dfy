/** The logits processor that forbids bad words (vllm/logits_process.py).  A logit is minus infinity
    or a real number. */
module BadWords {
  import opened Options

  datatype Logit = NegInf | Fin(value: real)

  datatype Outcome = Ok(logits: seq<Logit>) | ValueError(invalid: seq<int>) | IndexError | ShapeError

  function Plus(a: Logit, b: Logit): Logit {
    if a.NegInf? || b.NegInf? then NegInf else Fin(a.value + b.value)
  }

  // ---- What is forbidden ----------------------------------------------------------------------

  /** The last tokens are all of the word but its last. */
  predicate Matches(word: seq<int>, past: seq<int>)
    requires 0 < |word| <= |past| + 1
  {
    past[|past| - (|word| - 1)..] == word[..|word| - 1]
  }

  /** `t` after `past` completes the word. */
  predicate Completes(word: seq<int>, past: seq<int>, t: int) {
    0 < |word| <= |past| + 1 && word[|word| - 1] == t && Matches(word, past)
  }

  predicate Banned(words: seq<seq<int>>, past: seq<int>, t: int) {
    exists i :: 0 <= i < |words| && Completes(words[i], past, t)
  }

  /** The word is a contiguous part of the tokens, ending before position `j`. */
  predicate OccursAt(word: seq<int>, tokens: seq<int>, j: nat) {
    |word| <= j <= |tokens| && tokens[j - |word|..j] == word
  }

  /** No word ends among the tokens from `from` on. */
  predicate Clean(words: seq<seq<int>>, tokens: seq<int>, from: nat) {
    forall i, j :: 0 <= i < |words| && from < j <= |tokens| ==> !OccursAt(words[i], tokens, j)
  }

  /** Completing a word is making it occur at the end. */
  lemma {:induction false} CompletesIff(word: seq<int>, tokens: seq<int>, j: nat)
    requires j < |tokens| && word != []
    ensures Completes(word, tokens[..j], tokens[j]) <==> OccursAt(word, tokens, j + 1)
  {
    var past, n := tokens[..j], |word| - 1;
    if n <= j {
      var s := tokens[j - n..j + 1];
      assert s == tokens[j - n..j] + [tokens[j]];
      assert past[j - n..] == tokens[j - n..j];
      assert word == word[..n] + [word[n]];
      assert s[..n] == tokens[j - n..j] && s[n] == tokens[j];
    }
  }

  /** Over every run: the tokens from `from` on are all allowed when they are generated if and only if
      no bad word ends among them. */
  lemma {:induction false} RunSafe(words: seq<seq<int>>, tokens: seq<int>, from: nat)
    requires NoneEmpty(words)
    ensures (forall j :: from <= j < |tokens| ==> !Banned(words, tokens[..j], tokens[j])) <==>
            Clean(words, tokens, from)
  {
    hide Completes;
    forall i, j | 0 <= i < |words| && 0 <= j < |tokens|
      ensures Completes(words[i], tokens[..j], tokens[j]) <==> OccursAt(words[i], tokens, j + 1)
    {
      CompletesIff(words[i], tokens, j);
    }
    if forall j :: from <= j < |tokens| ==> !Banned(words, tokens[..j], tokens[j]) {
      forall i, j | 0 <= i < |words| && from < j <= |tokens|
        ensures !OccursAt(words[i], tokens, j)
      {
        assert !Banned(words, tokens[..j - 1], tokens[j - 1]);
        assert OccursAt(words[i], tokens, j - 1 + 1) == OccursAt(words[i], tokens, j);
      }
    }
  }

  // ---- Biases ---------------------------------------------------------------------------------

  /** One of the first `n` words is this one token. */
  predicate AloneBanned(words: seq<seq<int>>, n: nat, t: int)
    requires n <= |words|
  {
    exists i :: 0 <= i < n && words[i] == [t]
  }

  /** One of the first `n` words has at least two tokens and is completed by `t`. */
  predicate SuffixBanned(words: seq<seq<int>>, n: nat, past: seq<int>, t: int)
    requires n <= |words|
  {
    exists i :: 0 <= i < n && |words[i]| > 1 && Completes(words[i], past, t)
  }

  lemma {:induction false} BannedIff(words: seq<seq<int>>, past: seq<int>, t: int)
    ensures Banned(words, past, t) <==> AloneBanned(words, |words|, t) || SuffixBanned(words, |words|, past, t)
  {
    forall i | 0 <= i < |words| && |words[i]| == 1
      ensures Completes(words[i], past, t) <==> words[i] == [t]
    {
      assert past[|past|..] == [] && words[i][..0] == [];
    }
  }

  function BiasIf(banned: bool): Logit {
    if banned then NegInf else Fin(0.0)
  }

  /** The bias of the one-token words. */
  ghost predicate IsWordBias(bias: seq<Logit>, words: seq<seq<int>>, n: nat)
    requires n <= |words|
  {
    forall t :: 0 <= t < |bias| ==> bias[t] == BiasIf(AloneBanned(words, n, t))
  }

  ghost predicate IsLastBias(bias: seq<Logit>, words: seq<seq<int>>, n: nat, past: seq<int>)
    requires n <= |words|
  {
    forall t :: 0 <= t < |bias| ==> bias[t] == BiasIf(SuffixBanned(words, n, past, t))
  }

  predicate WordInBounds(word: seq<int>, vocab: nat) {
    forall j :: 0 <= j < |word| ==> 0 <= word[j] < vocab
  }

  predicate InBounds(words: seq<seq<int>>, vocab: nat) {
    forall i :: 0 <= i < |words| ==> WordInBounds(words[i], vocab)
  }

  predicate NoneEmpty(words: seq<seq<int>>) {
    forall i :: 0 <= i < |words| ==> |words[i]| > 0
  }

  /** The token ids out of bounds among the first `m` of a word. */
  function InvalidIn(word: seq<int>, m: nat, vocab: nat): seq<int>
    requires m <= |word|
  {
    if m == 0 then []
    else InvalidIn(word, m - 1, vocab) + if 0 <= word[m - 1] < vocab then [] else [word[m - 1]]
  }

  /** The token ids out of bounds among the first `n` words, in order. */
  function Invalid(words: seq<seq<int>>, n: nat, vocab: nat): seq<int>
    requires n <= |words|
  {
    if n == 0 then [] else Invalid(words, n - 1, vocab) + InvalidIn(words[n - 1], |words[n - 1]|, vocab)
  }

  lemma {:induction false} InvalidInIff(word: seq<int>, m: nat, vocab: nat)
    requires m <= |word|
    ensures InvalidIn(word, m, vocab) == [] <==> forall j :: 0 <= j < m ==> 0 <= word[j] < vocab
  {
    if m == 0 {
    } else {
      InvalidInIff(word, m - 1, vocab);
    }
  }

  /** There are none exactly when all words are in bounds. */
  lemma {:induction false} InvalidIff(words: seq<seq<int>>, n: nat, vocab: nat)
    requires n <= |words|
    ensures Invalid(words, n, vocab) == [] <==> forall i :: 0 <= i < n ==> WordInBounds(words[i], vocab)
  {
    if n == 0 {
    } else {
      InvalidIff(words, n - 1, vocab);
      InvalidInIff(words[n - 1], |words[n - 1]|, vocab);
    }
  }

  /** The ids of the first `n` words, one after the other. */
  function Ids(words: seq<seq<int>>, n: nat): seq<int>
    requires n <= |words|
  {
    if n == 0 then [] else Ids(words, n - 1) + words[n - 1]
  }

  /** How many of the first `m` ids are out of bounds. */
  function CountInvalid(ids: seq<int>, m: nat, vocab: nat): nat
    requires m <= |ids|
  {
    if m == 0 then 0 else CountInvalid(ids, m - 1, vocab) + if ids[m - 1] < 0 || vocab <= ids[m - 1] then 1 else 0
  }

  lemma {:induction false} InvalidPrefix(ids: seq<int>, more: seq<int>, m: nat, vocab: nat)
    requires m <= |ids|
    ensures InvalidIn(ids + more, m, vocab) == InvalidIn(ids, m, vocab)
  {
    if m > 0 {
      InvalidPrefix(ids, more, m - 1, vocab);
      assert (ids + more)[m - 1] == ids[m - 1];
    }
  }

  lemma {:induction false} InvalidJoined(ids: seq<int>, more: seq<int>, m: nat, vocab: nat)
    requires m <= |more|
    ensures InvalidIn(ids + more, |ids| + m, vocab) == InvalidIn(ids, |ids|, vocab) + InvalidIn(more, m, vocab)
  {
    if m == 0 {
      InvalidPrefix(ids, more, |ids|, vocab);
    } else {
      InvalidJoined(ids, more, m - 1, vocab);
      assert (ids + more)[|ids| + m - 1] == more[m - 1];
    }
  }

  lemma {:induction false} InvalidIds(words: seq<seq<int>>, n: nat, vocab: nat)
    requires n <= |words|
    ensures Invalid(words, n, vocab) == InvalidIn(Ids(words, n), |Ids(words, n)|, vocab)
  {
    hide InvalidIn;
    if n == 0 {
      assert InvalidIn([], 0, vocab) == [] by {
        InvalidInIff([], 0, vocab);
      }
    } else {
      InvalidIds(words, n - 1, vocab);
      InvalidJoined(Ids(words, n - 1), words[n - 1], |words[n - 1]|, vocab);
    }
  }

  lemma {:induction false} InvalidInAt(ids: seq<int>, m: nat, vocab: nat, i: nat)
    requires i <= m <= |ids|
    ensures |InvalidIn(ids, m, vocab)| == CountInvalid(ids, m, vocab)
    ensures i < m && (ids[i] < 0 || vocab <= ids[i]) ==>
              CountInvalid(ids, i, vocab) < CountInvalid(ids, m, vocab) &&
              InvalidIn(ids, m, vocab)[CountInvalid(ids, i, vocab)] == ids[i]
  {
    if m > 0 {
      InvalidInAt(ids, m - 1, vocab, if i < m then i else m - 1);
    }
  }

  /** The ids that are reported are those out of bounds, in the order of the words. */
  lemma {:induction false} InvalidAt(words: seq<seq<int>>, vocab: nat, i: nat)
    requires i < |Ids(words, |words|)|
    ensures var ids := Ids(words, |words|);
            var invalid := Invalid(words, |words|, vocab);
            && |invalid| == CountInvalid(ids, |ids|, vocab)
            && (ids[i] < 0 || vocab <= ids[i] ==>
                  CountInvalid(ids, i, vocab) < |invalid| && invalid[CountInvalid(ids, i, vocab)] == ids[i])
  {
    hide Invalid, InvalidIn, CountInvalid, Ids;
    var ids := Ids(words, |words|);
    InvalidIds(words, |words|, vocab);
    InvalidInAt(ids, |ids|, vocab, i);
  }

  lemma {:induction false} AloneNext(words: seq<seq<int>>, n: nat, t: int)
    requires n < |words|
    ensures AloneBanned(words, n + 1, t) <==> AloneBanned(words, n, t) || words[n] == [t]
  {
  }

  lemma {:induction false} SuffixNext(words: seq<seq<int>>, n: nat, past: seq<int>, t: int)
    requires n < |words|
    ensures SuffixBanned(words, n + 1, past, t) <==>
            SuffixBanned(words, n, past, t) || (|words[n]| > 1 && Completes(words[n], past, t))
  {
  }

  class NoBadWordsLogitsProcessor {
    const words: seq<seq<int>>
    var wordBias: Option<seq<Logit>>

    /** A bias that was kept is the one that would be built again. */
    ghost predicate Valid()
      reads this
    {
      wordBias.Some? ==> InBounds(words, |wordBias.value|) && IsWordBias(wordBias.value, words, |words|)
    }

    constructor (words: seq<seq<int>>)
      ensures Valid() && this.words == words && wordBias == None
    {
      this.words := words;
      wordBias := None;
    }

    /** `_check_token_ids_bounds` */
    method CheckTokenIdsBounds(vocab: nat) returns (invalid: seq<int>)
      ensures invalid == Invalid(words, |words|, vocab)
    {
      invalid := [];
      for i := 0 to |words|
        invariant invalid == Invalid(words, i, vocab)
      {
        ghost var before := invalid;
        for j := 0 to |words[i]|
          invariant invalid == before + InvalidIn(words[i], j, vocab)
        {
          if words[i][j] < 0 || words[i][j] >= vocab {
            invalid := invalid + [words[i][j]];
          }
        }
      }
    }

    /** `_init_word_bias` */
    method InitWordBias(vocab: nat) returns (invalid: seq<int>)
      requires Valid() && wordBias == None
      modifies this
      ensures Valid() && invalid == Invalid(words, |words|, vocab)
      ensures if invalid == [] then wordBias.Some? && |wordBias.value| == vocab else wordBias == None
    {
      invalid := CheckTokenIdsBounds(vocab);
      InvalidIff(words, |words|, vocab);
      if invalid != [] {
        return;
      }
      var bias := new Logit[vocab](_ => Fin(0.0));
      assert forall t :: 0 <= t < vocab ==> !AloneBanned(words, 0, t);
      for i := 0 to |words|
        invariant fresh(bias) && wordBias == None
        invariant IsWordBias(bias[..], words, i)
      {
        hide IsWordBias, AloneBanned;
        assert WordInBounds(words[i], vocab);
        ghost var before := bias[..];
        if |words[i]| == 1 {
          bias[words[i][0]] := NegInf;
        }
        WordBiasNext(before, bias[..], words, i);
      }
      wordBias := Some(bias[..]);
    }

    /** `__call__`.  With logits of the length of the first call, exactly those of the tokens that would complete a bad
        word become minus infinity.  With another length, an id may be out of range, and the tensors must broadcast. */
    method Call(past: seq<int>, logits: seq<Logit>) returns (r: Outcome)
      requires Valid()
      modifies this
      ensures Valid() && (old(wordBias).Some? ==> wordBias == old(wordBias))
      ensures old(wordBias).None? && !InBounds(words, |logits|) ==>
                r == ValueError(Invalid(words, |words|, |logits|)) && wordBias == None
      ensures old(wordBias).None? && InBounds(words, |logits|) ==> wordBias.Some? && |wordBias.value| == |logits|
      ensures wordBias.Some? ==>
                var n := Shape(|wordBias.value|, |logits|);
                if !LastsFit(words, |words|, past, |logits|) then r == IndexError
                else if n.None? then r == ShapeError
                else r.Ok? && |r.logits| == n.value && Broadcast(words, past, logits, |wordBias.value|, r.logits)
      ensures wordBias.Some? && |wordBias.value| == |logits| ==>
                && (!NoneEmpty(words) ==> r == IndexError)
                && (NoneEmpty(words) ==>
                      && r.Ok? && |r.logits| == |logits|
                      && forall t :: 0 <= t < |logits| ==>
                           r.logits[t] == if Banned(words, past, t) then NegInf else logits[t])
    {
      hide IsWordBias, IsLastBias, LastsFit, Broadcast, Banned, InBounds, NoneEmpty, Invalid;
      if wordBias == None {
        InvalidIff(words, |words|, |logits|);
        AllInBounds(words, |logits|);
        var invalid := InitWordBias(|logits|);
        if invalid != [] {
          return ValueError(invalid);
        }
      }
      var bias := wordBias.value;
      if |bias| == |logits| {
        LastsFitIff(words, past, |logits|);
      }
      var ok, lastBias := LastTokenBias(past, |logits|, |bias|);
      if !ok {
        return IndexError;
      }
      var sum := BroadcastAdd(logits, bias);
      if sum.None? {
        return ShapeError;
      }
      var result := BroadcastAdd(sum.value, lastBias);
      Summed(logits, bias, lastBias, words, past);
      r := Ok(result.value);
    }

    /** The loop of `__call__`. */
    method LastTokenBias(past: seq<int>, vocab: nat, ghost bound: nat) returns (ok: bool, bias: seq<Logit>)
      requires InBounds(words, bound)
      ensures ok == LastsFit(words, |words|, past, vocab)
      ensures ok ==> |bias| == vocab && IsLastBias(bias, words, |words|, past)
    {
      hide *;
      var lastBias := new Logit[vocab](_ => Fin(0.0));
      NothingBiased(lastBias[..], words, past);
      for i := 0 to |words|
        invariant fresh(lastBias) && lastBias.Length == vocab && IsLastBias(lastBias[..], words, i, past)
        invariant LastsFit(words, i, past, vocab)
      {
        LastsFitNext(words, i, past, vocab, bound);
        if |words[i]| == 0 {
          return false, [];
        }
        var last := words[i][|words[i]| - 1];
        if 1 < |words[i]| <= |past| + 1 {
          if last >= vocab {
            return false, [];
          }
          BiasNext(lastBias[..], words, i, past);
          AddBias(lastBias, words[i], past);
        } else {
          BiasSame(lastBias[..], words, i, past);
        }
      }
      return true, lastBias[..];
    }

    /** One word of the loop: the bias of its last token, in place. */
    static method AddBias(bias: array<Logit>, word: seq<int>, past: seq<int>)
      requires 1 < |word| <= |past| + 1 && 0 <= word[|word| - 1] < bias.Length
      modifies bias
      ensures bias[..] == Biased(old(bias[..]), word, past)
    {
      var last := word[|word| - 1];
      bias[last] := Plus(bias[last], BiasIf(Matches(word, past)));
    }
  }

  function Biased(bias: seq<Logit>, word: seq<int>, past: seq<int>): (r: seq<Logit>)
    requires 1 < |word| <= |past| + 1 && 0 <= word[|word| - 1] < |bias|
    ensures |r| == |bias|
  {
    var last := word[|word| - 1];
    bias[last := Plus(bias[last], BiasIf(Matches(word, past)))]
  }

  /** None of the first `n` words is empty, and those whose prefix is compared end in a token of the vocabulary. */
  predicate LastsFit(words: seq<seq<int>>, n: nat, past: seq<int>, vocab: nat)
    requires n <= |words|
  {
    forall i :: 0 <= i < n ==>
      |words[i]| > 0 && (1 < |words[i]| <= |past| + 1 ==> words[i][|words[i]| - 1] < vocab)
  }

  lemma {:induction false} LastsFitNext(words: seq<seq<int>>, i: nat, past: seq<int>, vocab: nat, bound: nat)
    requires i < |words| && InBounds(words, bound) && LastsFit(words, i, past, vocab)
    ensures |words[i]| > 0 ==> 0 <= words[i][|words[i]| - 1]
    ensures LastsFit(words, i + 1, past, vocab) <==>
              |words[i]| > 0 && (1 < |words[i]| <= |past| + 1 ==> words[i][|words[i]| - 1] < vocab)
    ensures !LastsFit(words, i + 1, past, vocab) ==> !LastsFit(words, |words|, past, vocab)
  {
    assert WordInBounds(words[i], bound);
  }

  /** When all words are in bounds, only empty words are a problem. */
  lemma {:induction false} LastsFitIff(words: seq<seq<int>>, past: seq<int>, vocab: nat)
    requires InBounds(words, vocab)
    ensures LastsFit(words, |words|, past, vocab) <==> NoneEmpty(words)
  {
    forall i | 0 <= i < |words| && |words[i]| > 0
      ensures words[i][|words[i]| - 1] < vocab
    {
      assert WordInBounds(words[i], vocab);
    }
  }

  lemma {:induction false} AllInBounds(words: seq<seq<int>>, vocab: nat)
    ensures InBounds(words, vocab) <==> forall i :: 0 <= i < |words| ==> WordInBounds(words[i], vocab)
  {
  }

  // ---- Addition of tensors --------------------------------------------------------------------

  /** The length of the sum of tensors of these lengths, if they broadcast. */
  function Shape(a: nat, b: nat): Option<nat> {
    if a == b then Some(a) else if a == 1 then Some(b) else if b == 1 then Some(a) else None
  }

  /** Each length is the result's or one, and the result's is one of them. */
  lemma {:induction false} ShapeIs(a: nat, b: nat, n: nat)
    ensures Shape(a, b) == Some(n) <==> (a == n || a == 1) && (b == n || b == 1) && (n == a || n == b)
  {
  }

  /** The place in a tensor of length `n` that broadcasts to place `t`. */
  function Place(t: nat, n: nat): nat {
    if n == 1 then 0 else t
  }

  function BroadcastAdd(a: seq<Logit>, b: seq<Logit>): (r: Option<seq<Logit>>)
    ensures r.Some? <==> Shape(|a|, |b|).Some?
    ensures r.Some? ==> |r.value| == Shape(|a|, |b|).value
    ensures r.Some? ==> forall t :: 0 <= t < |r.value| ==> r.value[t] == Plus(a[Place(t, |a|)], b[Place(t, |b|)])
  {
    var n := Shape(|a|, |b|);
    if n.None? then None
    else Some(seq(n.value, t requires 0 <= t < n.value => Plus(a[Place(t, |a|)], b[Place(t, |b|)])))
  }

  /** What the sum of the logits, the bias of one-token words for a vocabulary of `m`, and the bias of longer
      words is. */
  ghost predicate Broadcast(words: seq<seq<int>>, past: seq<int>, logits: seq<Logit>, m: nat, r: seq<Logit>) {
    && (|r| > 0 ==> |logits| == 1 || |logits| == |r|)
    && forall t :: 0 <= t < |r| ==>
         r[t] == if AloneBanned(words, |words|, Place(t, m)) || SuffixBanned(words, |words|, past, Place(t, |logits|))
                 then NegInf else logits[Place(t, |logits|)]
  }

  lemma {:induction false} NothingBiased(bias: seq<Logit>, words: seq<seq<int>>, past: seq<int>)
    requires forall t :: 0 <= t < |bias| ==> bias[t] == Fin(0.0)
    ensures IsLastBias(bias, words, 0, past) && LastsFit(words, 0, past, |bias|)
  {
  }

  lemma {:induction false} WordBiasNext(before: seq<Logit>, after: seq<Logit>, words: seq<seq<int>>, i: nat)
    requires i < |words| && IsWordBias(before, words, i) && |after| == |before| && WordInBounds(words[i], |before|)
    requires after == if |words[i]| == 1 then before[words[i][0] := NegInf] else before
    ensures IsWordBias(after, words, i + 1)
  {
    forall t | 0 <= t < |after|
      ensures after[t] == BiasIf(AloneBanned(words, i + 1, t))
    {
      AloneNext(words, i, t);
    }
  }

  lemma {:induction false} PlusBias(x: bool, y: bool)
    ensures Plus(BiasIf(x), BiasIf(y)) == BiasIf(x || y)
  {
  }

  /** After one more word, the bias forbids what that word forbids too. */
  lemma {:induction false} BiasNext(bias: seq<Logit>, words: seq<seq<int>>, i: nat, past: seq<int>)
    requires i < |words| && IsLastBias(bias, words, i, past)
    requires 1 < |words[i]| <= |past| + 1 && 0 <= words[i][|words[i]| - 1] < |bias|
    ensures IsLastBias(Biased(bias, words[i], past), words, i + 1, past)
  {
    hide Plus, BiasIf, Matches, SuffixBanned;
    var word, after := words[i], Biased(bias, words[i], past);
    forall t | 0 <= t < |after|
      ensures after[t] == BiasIf(SuffixBanned(words, i + 1, past, t))
    {
      SuffixNext(words, i, past, t);
      PlusBias(SuffixBanned(words, i, past, t), Matches(word, past));
    }
  }

  lemma {:induction false} BiasSame(bias: seq<Logit>, words: seq<seq<int>>, i: nat, past: seq<int>)
    requires i < |words| && IsLastBias(bias, words, i, past) && !(1 < |words[i]| <= |past| + 1)
    ensures IsLastBias(bias, words, i + 1, past)
  {
    hide BiasIf, Matches, SuffixBanned;
    forall t | 0 <= t < |bias|
      ensures bias[t] == BiasIf(SuffixBanned(words, i + 1, past, t))
    {
      SuffixNext(words, i, past, t);
    }
  }

  /** The sum is minus infinity exactly where a word forbids it, for equal lengths and with broadcasting. */
  lemma {:induction false} Summed(logits: seq<Logit>, wordBias: seq<Logit>, lastBias: seq<Logit>, words: seq<seq<int>>,
                                  past: seq<int>)
    requires Shape(|wordBias|, |logits|).Some? && |lastBias| == |logits|
    requires IsWordBias(wordBias, words, |words|) && IsLastBias(lastBias, words, |words|, past)
    ensures BroadcastAdd(logits, wordBias).Some? && BroadcastAdd(BroadcastAdd(logits, wordBias).value, lastBias).Some?
    ensures var r := BroadcastAdd(BroadcastAdd(logits, wordBias).value, lastBias).value;
            && |r| == Shape(|wordBias|, |logits|).value && Broadcast(words, past, logits, |wordBias|, r)
            && (|wordBias| == |logits| ==>
                  forall t :: 0 <= t < |logits| ==> r[t] == if Banned(words, past, t) then NegInf else logits[t])
  {
    hide AloneBanned, SuffixBanned, Banned, BroadcastAdd;
    var r := BroadcastAdd(BroadcastAdd(logits, wordBias).value, lastBias).value;
    forall t | 0 <= t < |r|
      ensures r[t] == if AloneBanned(words, |words|, Place(t, |wordBias|)) ||
                         SuffixBanned(words, |words|, past, Place(t, |logits|))
                      then NegInf else logits[Place(t, |logits|)]
      ensures |wordBias| == |logits| ==> r[t] == if Banned(words, past, t) then NegInf else logits[t]
    {
      BannedIff(words, past, t);
    }
  }

  /** After a first call with one logit, the bad word of that one token forbids every token. */
  method ForbidsEverything(past: seq<int>, one: Logit, logits: seq<Logit>) returns (r: Outcome)
    requires |logits| > 1
    ensures r.Ok? && |r.logits| == |logits| && forall t :: 0 <= t < |logits| ==> r.logits[t] == NegInf
  {
    var p := new NoBadWordsLogitsProcessor([[0]]);
    assert WordInBounds(p.words[0], 1);
    r := p.Call(past, [one]);
    assert AloneBanned(p.words, 1, 0) by {
      assert p.words[0] == [0];
    }
    r := p.Call(past, logits);
  }

  // ---- Generation -----------------------------------------------------------------------------

  /** The processor lets token `t` be sampled after `past`. */
  predicate Allowed(words: seq<seq<int>>, past: seq<int>, logits: seq<Logit>, t: int) {
    0 <= t < |logits| && logits[t] != NegInf && !Banned(words, past, t)
  }

  /** The processed logit of `t` is not minus infinity, with a bias that was built for `m` tokens. */
  predicate Passes(words: seq<seq<int>>, past: seq<int>, m: nat, logits: seq<Logit>, t: int) {
    && InBounds(words, m) && LastsFit(words, |words|, past, |logits|)
    && Shape(m, |logits|).Some? && 0 <= t < Shape(m, |logits|).value
    && !AloneBanned(words, |words|, Place(t, m)) && !SuffixBanned(words, |words|, past, Place(t, |logits|))
    && logits[Place(t, |logits|)] != NegInf
  }

  /** With logits of the length of the first call, that is every token that is allowed. */
  lemma {:induction false} PassesIff(words: seq<seq<int>>, past: seq<int>, logits: seq<Logit>, t: int)
    ensures Passes(words, past, |logits|, logits, t) <==>
            InBounds(words, |logits|) && NoneEmpty(words) && Allowed(words, past, logits, t)
  {
    hide InBounds, LastsFit, NoneEmpty, AloneBanned, SuffixBanned, Banned;
    BannedIff(words, past, t);
    if InBounds(words, |logits|) {
      LastsFitIff(words, past, |logits|);
    }
  }

  /** With any lengths, a token that passes completes no bad word. */
  lemma {:induction false} PassesSafe(words: seq<seq<int>>, past: seq<int>, m: nat, logits: seq<Logit>, t: int)
    requires Passes(words, past, m, logits, t)
    ensures !Banned(words, past, t) && NoneEmpty(words)
  {
    hide Matches;
    if i :| 0 <= i < |words| && Completes(words[i], past, t) {
      BannedIff(words, past, t);
      assert WordInBounds(words[i], m) && words[i][|words[i]| - 1] == t;
    }
  }

  /** The length that the bias has, or gets at the first call. */
  function BiasLength(bias: Option<seq<Logit>>, model: seq<seq<Logit>>): nat {
    if bias.Some? then |bias.value| else if model == [] then 0 else |model[0]|
  }

  lemma {:induction false} PassesIs(words: seq<seq<int>>, past: seq<int>, m: nat, logits: seq<Logit>, r: Outcome,
                                    t: int)
    requires !InBounds(words, m) ==> !r.Ok?
    requires InBounds(words, m) ==>
               if !LastsFit(words, |words|, past, |logits|) then r == IndexError
               else if Shape(m, |logits|).None? then r == ShapeError
               else r.Ok? && |r.logits| == Shape(m, |logits|).value && Broadcast(words, past, logits, m, r.logits)
    ensures r.Ok? && 0 <= t < |r.logits| && r.logits[t] != NegInf <==> Passes(words, past, m, logits, t)
  {
    hide InBounds, LastsFit, AloneBanned, SuffixBanned;
  }

  /** Generates from the logits of the model at each step, as long as the sampler picks a token whose processed logit
      is not minus infinity: no bad word ends among the generated tokens, whatever the processor was called with
      before and however long the logits are. */
  method Generate(p: NoBadWordsLogitsProcessor, start: seq<int>, model: seq<seq<Logit>>, picks: seq<int>)
    returns (tokens: seq<int>)
    requires p.Valid() && |model| == |picks|
    modifies p
    ensures |start| <= |tokens| <= |start| + |picks| && tokens == start + picks[..|tokens| - |start|]
    ensures Clean(p.words, tokens, |start|)
    ensures var m := BiasLength(old(p.wordBias), model);
            forall k :: 0 <= k < |tokens| - |start| ==> Passes(p.words, start + picks[..k], m, model[k], picks[k])
    ensures |tokens| < |start| + |picks| ==>
              var m, k := BiasLength(old(p.wordBias), model), |tokens| - |start|;
              !Passes(p.words, tokens, m, model[k], picks[k])
  {
    hide Banned, InBounds, NoneEmpty, Clean, Invalid, LastsFit, Broadcast, Passes, IsWordBias;
    tokens := start;
    ghost var m := BiasLength(p.wordBias, model);
    for k := 0 to |picks|
      invariant p.Valid() && (p.wordBias.Some? ==> |p.wordBias.value| == m)
      invariant p.wordBias.None? ==> k == 0 && p.wordBias == old(p.wordBias)
      invariant |tokens| == |start| + k && tokens == start + picks[..k] && (k > 0 ==> NoneEmpty(p.words))
      invariant forall j :: |start| <= j < |tokens| ==> !Banned(p.words, tokens[..j], tokens[j])
      invariant forall j :: 0 <= j < k ==> Passes(p.words, start + picks[..j], m, model[j], picks[j])
    {
      var r := p.Call(tokens, model[k]);
      PassesIs(p.words, tokens, m, model[k], r, picks[k]);
      if !r.Ok? || picks[k] < 0 || picks[k] >= |r.logits| || r.logits[picks[k]] == NegInf {
        AllGood(p.words, tokens, |start|, k);
        return;
      }
      PassesSafe(p.words, tokens, m, model[k], picks[k]);
      AllowedNext(p.words, tokens, picks[k], |start|);
      tokens := tokens + [picks[k]];
    }
    AllGood(p.words, tokens, |start|, |picks|);
  }

  lemma {:induction false} AllowedNext(words: seq<seq<int>>, tokens: seq<int>, t: int, from: nat)
    requires from <= |tokens| && !Banned(words, tokens, t)
    requires forall j :: from <= j < |tokens| ==> !Banned(words, tokens[..j], tokens[j])
    ensures var next := tokens + [t]; forall j :: from <= j < |next| ==> !Banned(words, next[..j], next[j])
  {
    hide Banned;
    var next := tokens + [t];
    forall j | from <= j < |next|
      ensures !Banned(words, next[..j], next[j])
    {
      assert next[..j] == tokens[..j];
      assert j == |tokens| ==> tokens[..j] == tokens;
    }
  }

  lemma {:induction false} AllGood(words: seq<seq<int>>, tokens: seq<int>, from: nat, k: nat)
    requires |tokens| == from + k && (k > 0 ==> NoneEmpty(words))
    requires forall j :: from <= j < |tokens| ==> !Banned(words, tokens[..j], tokens[j])
    ensures Clean(words, tokens, from)
  {
    hide Banned, OccursAt, NoneEmpty;
    if k > 0 {
      RunSafe(words, tokens, from);
    }
  }

  // ---- From words to token ids ----------------------------------------------------------------

  /** The tokens of a stripped word, without and with a space before it.  Words are only handed to the
      tokenizer, so numbers stand for them. */
  type Tokenizer = (int, bool) -> seq<int>

  predicate Encodable(encode: Tokenizer, word: int) {
    |encode(word, false)| > 0 && |encode(word, true)| > 0
  }

  /** The space gives another first token and as many tokens. */
  predicate NewWordToken(encode: Tokenizer, word: int)
    requires Encodable(encode, word)
  {
    encode(word, true)[0] != encode(word, false)[0] && |encode(word, true)| == |encode(word, false)|
  }

  /** The ids of one word. */
  function Forms(encode: Tokenizer, word: int): seq<seq<int>>
    requires Encodable(encode, word)
  {
    [encode(word, false)] + if NewWordToken(encode, word) then [encode(word, true)] else []
  }

  function Variants(encode: Tokenizer, words: seq<int>, n: nat): seq<seq<int>>
    requires n <= |words| && forall i :: 0 <= i < n ==> Encodable(encode, words[i])
  {
    if n == 0 then []
    else Variants(encode, words, n - 1) + Forms(encode, words[n - 1])
  }

  /** `get_bad_words_logits_processors`, up to the construction.  It fails exactly when the tokenizer
      gives no token for a word. */
  method GetBadWordsIds(words: seq<int>, encode: Tokenizer) returns (r: Option<seq<seq<int>>>)
    ensures r.Some? <==> forall i :: 0 <= i < |words| ==> Encodable(encode, words[i])
    ensures r.Some? ==> r.value == Variants(encode, words, |words|)
  {
    var ids: seq<seq<int>> := [];
    for i := 0 to |words|
      invariant forall k :: 0 <= k < i ==> Encodable(encode, words[k])
      invariant ids == Variants(encode, words, i)
    {
      var plain := encode(words[i], false);
      ids := ids + [plain];
      var spaced := encode(words[i], true);
      if |spaced| == 0 || |ids[|ids| - 1]| == 0 {
        return None;
      }
      if spaced[0] != ids[|ids| - 1][0] && |spaced| == |ids[|ids| - 1]| {
        ids := ids + [spaced];
      }
    }
    r := Some(ids);
  }

  lemma {:induction false} FormsHold(encode: Tokenizer, word: int)
    requires Encodable(encode, word)
    ensures NoneEmpty(Forms(encode, word)) && encode(word, false) in Forms(encode, word)
    ensures NewWordToken(encode, word) ==> encode(word, true) in Forms(encode, word)
  {
    assert encode(word, false) == Forms(encode, word)[0];
    if NewWordToken(encode, word) {
      assert encode(word, true) == Forms(encode, word)[1];
    }
  }

  lemma {:induction false} NoVariants(encode: Tokenizer, words: seq<int>)
    ensures NoneEmpty(Variants(encode, words, 0))
  {
  }

  lemma {:induction false} VariantsNext(encode: Tokenizer, words: seq<int>, n: nat)
    requires n < |words| && forall i :: 0 <= i <= n ==> Encodable(encode, words[i])
    ensures Variants(encode, words, n + 1) == Variants(encode, words, n) + Forms(encode, words[n])
  {
    hide Encodable, NewWordToken, Forms;
  }

  lemma {:induction false} BothNoneEmpty(a: seq<seq<int>>, b: seq<seq<int>>)
    requires NoneEmpty(a) && NoneEmpty(b)
    ensures NoneEmpty(a + b)
  {
  }

  /** Every word is forbidden in its plain form, and in the other form when it is a new word token;
      nothing forbidden is empty. */
  lemma {:induction false} VariantsHold(encode: Tokenizer, words: seq<int>, n: nat)
    requires n <= |words| && forall i :: 0 <= i < n ==> Encodable(encode, words[i])
    ensures NoneEmpty(Variants(encode, words, n))
    ensures forall i :: 0 <= i < n ==> encode(words[i], false) in Variants(encode, words, n)
    ensures forall i :: 0 <= i < n && NewWordToken(encode, words[i]) ==>
              encode(words[i], true) in Variants(encode, words, n)
  {
    hide Encodable, NewWordToken, Forms, NoneEmpty, Variants;
    if n == 0 {
      NoVariants(encode, words);
    } else {
      VariantsHold(encode, words, n - 1);
      VariantsNext(encode, words, n - 1);
      FormsHold(encode, words[n - 1]);
      BothNoneEmpty(Variants(encode, words, n - 1), Forms(encode, words[n - 1]));
    }
  }

  /** What is forbidden: the plain form of every word, the spaced form of those in which it has as many tokens and
      another first one, and nothing else. */
  lemma {:induction false} VariantsIff(encode: Tokenizer, words: seq<int>, n: nat, ids: seq<int>)
    requires n <= |words| && forall i :: 0 <= i < n ==> Encodable(encode, words[i])
    ensures ids in Variants(encode, words, n) <==> exists i :: 0 <= i < n && IsForm(encode, words[i], ids)
  {
    hide Variants, Encodable, Forms, IsForm;
    if n == 0 {
      assert Variants(encode, words, 0) == [] by {
        NoVariantsAtAll(encode, words);
      }
    } else {
      VariantsIff(encode, words, n - 1, ids);
      VariantsNext(encode, words, n - 1);
      FormsIff(encode, words[n - 1], ids);
    }
  }

  predicate IsForm(encode: Tokenizer, word: int, ids: seq<int>)
    requires Encodable(encode, word)
  {
    var plain, spaced := encode(word, false), encode(word, true);
    ids == plain || (ids == spaced && |spaced| == |plain| && spaced[0] != plain[0])
  }

  lemma {:induction false} FormsIff(encode: Tokenizer, word: int, ids: seq<int>)
    requires Encodable(encode, word)
    ensures ids in Forms(encode, word) <==> IsForm(encode, word, ids)
  {
  }

  lemma {:induction false} NoVariantsAtAll(encode: Tokenizer, words: seq<int>)
    ensures Variants(encode, words, 0) == []
  {
  }

  /** When only allowed tokens are generated after the first `from`, no bad word ends among them in either
      form. */
  lemma {:induction false} CleanText(encode: Tokenizer, words: seq<int>, tokens: seq<int>, from: nat, i: nat, j: nat)
    requires forall k :: 0 <= k < |words| ==> Encodable(encode, words[k])
    requires Clean(Variants(encode, words, |words|), tokens, from)
    requires i < |words| && from < j <= |tokens|
    ensures !OccursAt(encode(words[i], false), tokens, j)
    ensures NewWordToken(encode, words[i]) ==> !OccursAt(encode(words[i], true), tokens, j)
  {
    hide OccursAt, NewWordToken, Encodable, Variants;
    VariantsHold(encode, words, |words|);
    var ids := Variants(encode, words, |words|);
    var k :| 0 <= k < |ids| && ids[k] == encode(words[i], false);
    assert !OccursAt(ids[k], tokens, j);
    if NewWordToken(encode, words[i]) {
      var k' :| 0 <= k' < |ids| && ids[k'] == encode(words[i], true);
      assert !OccursAt(ids[k'], tokens, j);
    }
  }

  /** From the words to the text: the ids of the words, a processor for them and generation with it. */
  method GenerateWithout(words: seq<int>, encode: Tokenizer, start: seq<int>, model: seq<seq<Logit>>, picks: seq<int>)
    returns (tokens: seq<int>)
    requires |model| == |picks|
    ensures |start| <= |tokens| <= |start| + |picks| && tokens == start + picks[..|tokens| - |start|]
    ensures forall i, j :: 0 <= i < |words| && |start| < j <= |tokens| ==> !OccursAt(encode(words[i], false), tokens, j)
    ensures forall i, j :: 0 <= i < |words| && |start| < j <= |tokens| ==>
              Encodable(encode, words[i]) && NewWordToken(encode, words[i]) ==>
                !OccursAt(encode(words[i], true), tokens, j)
    ensures |tokens| < |start| + |picks| && (forall i :: 0 <= i < |words| ==> Encodable(encode, words[i])) ==>
              var ids, k := Variants(encode, words, |words|), |tokens| - |start|;
              !Passes(ids, tokens, |model[0]|, model[k], picks[k])
  {
    hide OccursAt, NewWordToken, Encodable, Variants, Clean, Passes, NoneEmpty;
    var ids := GetBadWordsIds(words, encode);
    if ids.None? {
      return start;
    }
    VariantsHold(encode, words, |words|);
    var p := new NoBadWordsLogitsProcessor(ids.value);
    tokens := Generate(p, start, model, picks);
    forall i, j | 0 <= i < |words| && |start| < j <= |tokens|
      ensures !OccursAt(encode(words[i], false), tokens, j)
      ensures Encodable(encode, words[i]) && NewWordToken(encode, words[i]) ==>
                !OccursAt(encode(words[i], true), tokens, j)
    {
      CleanText(encode, words, tokens, |start|, i, j);
    }
  }
}
